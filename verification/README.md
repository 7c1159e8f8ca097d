# Temuka API service: a Dafny model of its service logic

The Temuka API service is the backend of a campus social network: communities
that users join and post in, universities with reviews and a running rating,
users who follow each other, posts with likes and a timeline, threaded
comments, file uploads, broker events, and a realtime websocket hub. This
project models the decision logic of its services and the two stateful pieces
at the edges, the RabbitMQ channel wrapper and the websocket hub. It then
proves what those pieces promise:

- which error each step reports and in what order;
- what is written, and that nothing else is;
- idempotence of likes and of hub registration;
- the exact slug, URL, query and rating values.

How the outside world is represented:

- **The database.** Each table the services touch is a small class holding
  its rows and an auto-increment id counter (`CommunityTable`, `PostTable`,
  `CommentTable`, `UniversityTable`, `ReviewTable`, `UserTable`,
  `NotificationTable`). Every database call takes `dbErr: Option<Error>`,
  the driver's answer to that call, so every failure path can be stated.
- **Go errors** are values. `Wrappers.Error` covers `errors.New`, gorm's
  `ErrRecordNotFound` and `fmt.Errorf("...: %w")`, with `errors.Is` as
  `Wrappers.Is`.
- **gorm's `Updates(struct)`** writes only the non-zero fields (`Orm`).
  So an update request that leaves a field empty does not clear the stored
  column, and `JoinCommunity`'s write-back of the fetched row changes only
  the member count.
- **The broker channel** is a class whose state is the log of AMQP calls
  issued on it. The broker's accept or refuse is an input of each call, and
  `json.Marshal` is an abstract function that may fail.
- **The websocket hub** is its client set plus the logs of the writes and
  closes it performs. Which clients fail their write in a broadcast is an
  input.

Modules, one per core file: `CommunityRepository`, `CommunityService`,
`UniversityService`, `UserService`, `PostService`, `CommentService`,
`FileService`, `Queue`, `SearchIndexPublisher` and `Websocket`. The shared
modules are `Wrappers` (Go errors and results), `Text` (ASCII `strings`
helpers and the slug rule), `Orm`, `Constants` and `Notifications`.

## Model

| member | source | states |
|---|---|---|
| Text.LowerChar | internal/service/community_service.go:41 | an upper-case ASCII letter becomes the matching lower-case letter (code + 32); any other character is left alone; the result is never upper-case |
| Text.ToLower | internal/service/user_service.go:40 | same length; each character is lower-cased in place |
| Text.ReplaceChar | internal/service/community_service.go:41 | same length; exactly the occurrences of `from` become `to` |
| Text.Slug | internal/service/community_service.go:41 | the slug has the name's length, and position i is '_' for a space and the lower-cased character otherwise |
| Text.SlugShape | internal/service/community_service.go:41 | the slug has the name's length, no space and no upper-case letter; position i is '_' for a space and the lower-cased character otherwise |
| Text.SlugIdempotent | internal/service/community_service.go:41 | slugging a slug gives the same slug |
| Text.ToLowerIdempotent | internal/service/user_service.go:40 | lower-casing twice equals lower-casing once |
| Text.ContainsFound | internal/service/user_service.go:40 | when `strings.Contains` holds, the pattern is a contiguous slice of the text |
| Text.SliceContained | internal/service/user_service.go:40 | any slice equal to the pattern makes `strings.Contains` true |
| Text.Contains | internal/service/user_service.go:40 | the empty pattern is always contained, and a contained pattern is no longer than the text |
| Text.ContainsIsSubstring | internal/service/user_service.go:40 | `strings.Contains` holds if and only if the pattern is a substring |
| Text.ContainsEmpty | internal/service/user_service.go:40 | every string contains "" |
| Orm.WriteStr | internal/repository/community_repository.go:59-66 | a non-empty update replaces the column; an empty one keeps it |
| Orm.WriteInt | internal/repository/community_repository.go:59-66 | a non-zero update replaces the column; zero keeps it |
| Orm.WritePtr | internal/repository/university_repository.go:44-52 | a non-nil pointer replaces the column; nil keeps it |
| Queue.InitQueueCalls | util/queue/rabbitmq.go:121-148 | the first call declares a non-exclusive queue named after the routing key; a bind of the declared queue under that key follows exactly when the declare succeeded and an exchange is named |
| Queue.PublishCalls | util/queue/rabbitmq.go:150-172 | one publish iff marshalling succeeds, carrying the marshalled bytes to the given exchange and key as persistent JSON, neither mandatory nor immediate |
| Queue.PublishResult | util/queue/rabbitmq.go:150-172 | the publish succeeds iff marshalling succeeds and the broker accepts |
| Queue.Channel.RegisterExchange | util/queue/rabbitmq.go:104-119 | one exchange declare with the given name, kind, durable and autoDelete and internal = noWait = false; the broker's error comes back wrapped as "Failed to declare exchange" |
| Queue.Channel.InitQueue | util/queue/rabbitmq.go:121-148 | issues exactly the InitQueueCalls; a failed declare gives the zero queue and "failed to declare queue" with no bind; a failed bind gives the zero queue and "failed to bind queue"; otherwise the declared queue |
| Queue.Channel.PublishMessage | util/queue/rabbitmq.go:150-172 | a marshal failure sends nothing and returns "failed to marshal message body"; otherwise exactly one persistent JSON publish, and a refusal returns "failed to publish message"; every publish on the channel keeps the JSON/persistent convention |
| SearchIndexPublisher.SetupCalls | internal/publisher/search_index_publisher.go:24-25 | a durable, not auto-deleted "direct" search exchange is declared, then a durable queue for the sync key; the bind to that exchange follows if and only if the queue declare succeeded and the exchange is named |
| SearchIndexPublisher.Publisher.constructor | internal/publisher/search_index_publisher.go:23-28 | both setup calls are issued whatever the broker answers, and construction always succeeds |
| SearchIndexPublisher.Publisher.PublishSyncEvent | internal/publisher/search_index_publisher.go:30-39 | the event carries op, type, entity id and data unchanged; it goes to the search exchange under the sync key; PublishMessage's result is returned unchanged |
| Websocket.Next | util/websocket/websocket.go:32-49 | a register puts the connection in and changes no other; an unregister takes it out and changes no other; a broadcast removes exactly the failing clients and adds none |
| Websocket.Replay | util/websocket/websocket.go:31-51 | every client after a run was a client at the start or was registered by one of the events |
| Websocket.EnumeratesOnce | util/websocket/websocket.go:42-43 | a listing of the client set has the set's size, reaches exactly its members and repeats none of them |
| Websocket.RegisterIdempotent | util/websocket/websocket.go:34-35 | registering twice leaves one entry, and the connection is present |
| Websocket.UnregisterAbsentIsNoop | util/websocket/websocket.go:36-37 | unregistering an absent connection leaves the set unchanged |
| Websocket.FailedClientDropped | util/websocket/websocket.go:41-48 | if exactly one of N clients fails, N - 1 clients remain and every other client is kept |
| Websocket.Deliver | util/websocket/websocket.go:42-48 | the pass writes the message exactly once to each client and closes exactly the clients whose write fails, once each |
| Websocket.Hub.constructor | util/websocket/websocket.go:22-29 | a new hub has no clients and has written and closed nothing |
| Websocket.Hub.Register | util/websocket/websocket.go:34-35 | adds the connection; nothing is written or closed |
| Websocket.Hub.Unregister | util/websocket/websocket.go:36-40 | a present connection is removed and closed once; an absent one changes nothing |
| Websocket.Hub.Broadcast | util/websocket/websocket.go:41-48 | the message is written exactly once to every client present at the start; exactly the failing clients are closed, once each; they are removed, and the set gains nothing |
| Websocket.Hub.Step | util/websocket/websocket.go:32-49 | one loop turn moves the client set as Next prescribes; both logs keep their prefix; a register writes and closes nothing; an unregister writes nothing and closes the connection iff it was present; a broadcast writes the message once to every client and closes exactly the failing ones |
| Websocket.Hub.Run | util/websocket/websocket.go:31-51 | after a run of events the client set is the replay of those events; the write and close logs only grow; every new write carries the message of one of the broadcast events |
| CommunityRepository.Merge | internal/repository/community_repository.go:59-66 | the id is kept; an all-zero update changes nothing; an update with every field non-zero replaces the whole row |
| CommunityRepository.MergeTwice | internal/repository/community_repository.go:59-66 | applying the same update twice stores what applying it once does |
| CommunityRepository.MergeMembersCount | internal/service/community_service.go:110-111 | writing back the fetched row with a non-zero member count changes that count and nothing else |
| CommunityRepository.CommunityTable.NameAvailable | internal/repository/community_repository.go:45-57 | the name is available iff the count query succeeds and no community has that name |
| CommunityRepository.CommunityTable.GetByID | internal/repository/community_repository.go:68-74 | returns the row iff the query succeeds and the id exists; otherwise an error wrapped as "failed to get community detail", whose cause is not-found when the id is missing |
| CommunityRepository.CommunityTable.CheckMembership | internal/repository/community_repository.go:116-130 | a bare not-found is "no member" and not an error; any other driver error is wrapped as "failed to check membership"; a member is reported iff the (user, community) row exists |
| CommunityRepository.CommunityTable.Create | internal/repository/community_repository.go:38-43 | on success the row is stored under a fresh id and no other row changes; on failure nothing changes |
| CommunityRepository.CommunityTable.Update | internal/repository/community_repository.go:59-66 | on success row id becomes the merge of its non-zero update fields, and a missing id changes nothing; on failure nothing changes |
| CommunityRepository.CommunityTable.AddMember | internal/repository/community_repository.go:91-96 | on success exactly one membership row is appended |
| CommunityRepository.CommunityTable.IncrementPostsCount | internal/repository/community_repository.go:98-105 | posts_count of row id rises by exactly 1 and nothing else changes |
| CommunityRepository.CommunityTable.IncrementMembersCount | internal/repository/community_repository.go:107-114 | members_count of row id rises by exactly 1 and nothing else changes |
| CommunityRepository.StringFilter | internal/repository/community_repository.go:144-145 | a value is read iff the key is present and holds a string |
| CommunityRepository.OrderClause | internal/repository/community_repository.go:144-153 | without a string sort_by the order is "created_at desc", whatever sort says; with one it is sort_by followed by the string sort, or "asc" |
| CommunityRepository.NonStringSortIsAbsent | internal/repository/community_repository.go:144-145 | a non-string sort or sort_by orders exactly as if the key were absent |
| CommunityRepository.OrderIgnoresConditionKeys | internal/repository/community_repository.go:137-153 | the order clause depends on the two sort keys only |
| CommunityRepository.BuildPostsQuery | internal/repository/community_repository.go:132-153 | the first condition is community_id; then one equality condition for each non-sort key, each key exactly once, in some visiting order; then OrderClause |
| CommunityService.NewCommunity | internal/service/community_service.go:39-45 | the inserted record has the request's fields, the slug of the name, and zero counters |
| CommunityService.UpdateRecord | internal/service/community_service.go:63-69 | the update record carries the request's slug verbatim |
| CommunityService.CreatedSlug | internal/service/community_service.go:41 | a created community's slug is as long as the name, has no space or upper-case letter, and is its own slug |
| CommunityService.UpdateSlugNotDerived | internal/service/community_service.go:63-69 | whatever the name, an update stores the request's slug when it is non-empty (an empty one keeps the stored slug), so a slug that breaks the rule is stored as given |
| CommunityService.CreateCommunity | internal/service/community_service.go:34-52 | a taken name, or a failed count, gives "community with the same name already exists" and nothing is written; a failed insert gives "error creating community"; otherwise the new record is stored under a fresh id |
| CommunityService.UpdateCommunity | internal/service/community_service.go:62-75 | "error updating community" writes nothing; on success the row is the merge and the update record is returned |
| CommunityService.JoinCommunity | internal/service/community_service.go:84-116 | errors in this order: retrieving, checking membership, already a member, adding the member, updating the count; nothing is written before the add; success appends one (user, community) member and raises MembersCount by exactly 1; the steps before a failure are not undone |
| UniversityService.GoDiv | internal/service/university_service.go:123 | Go's `/` truncates toward zero; it agrees with Euclidean division for a non-negative dividend and mirrors it for a negative one |
| UniversityService.GoDivTruncates | internal/service/university_service.go:123 | the quotient times the divisor lies within one divisor of the dividend, on the side of zero |
| UniversityService.RatingAsWritten | internal/service/university_service.go:122-123 | the formula as written; with no earlier review it gives the old rating plus the stars |
| UniversityService.NewRating | internal/service/university_service.go:122-123 | the corrected half of the rating finding (the average over the old count, not used by AddReview): with no earlier review it gives the stars |
| UniversityService.NewRatingBetween | internal/service/university_service.go:122-123 | the corrected half of the rating finding: the corrected rating lies between the old rating and the new stars |
| UniversityService.AsWrittenNeverDrops | internal/service/university_service.go:122-123 | for non-negative inputs the formula as written equals old + stars / newTotal, so a review never lowers the rating |
| UniversityService.AsWrittenInflates | internal/service/university_service.go:122-123 | as written, (5, 1 review, 1 star) stays at 5 where the average is 3, and (5, 1, 5) gives 7 |
| UniversityService.NewUniversity | internal/service/university_service.go:35-48 | every field of the inserted record comes from the request, the slug is that of the name, the majors total is a pointer to the request's; it has no rating or review count |
| UniversityService.Overwrite | internal/service/university_service.go:63-74 | every listed field comes from the request and the slug is derived from the new name; id, rating and review count are kept |
| UniversityService.Merge | internal/repository/university_repository.go:44-52 | the id is kept; an all-zero update changes nothing; an update with every field non-zero replaces the whole row |
| UniversityService.MergeTwice | internal/repository/university_repository.go:44-52 | applying the same update twice stores what applying it once does |
| UniversityService.OverwriteForgetsOld | internal/service/university_service.go:63-74 | nothing of the old row but id, rating and review count survives; overwriting is idempotent |
| UniversityService.StoredAfterUpdate | internal/service/university_service.go:63-76 | for each of the eleven request fields an empty ("" or 0) value keeps the stored column and a non-empty one replaces it; the slug follows a non-empty name; the majors total is always written; id, rating and review count are kept |
| UniversityService.UniversityTable.GetByID | internal/repository/university_repository.go:64-72 | returns the row iff the query succeeds and the id exists |
| UniversityService.UniversityTable.Create | internal/repository/university_repository.go:30-35 | on success the row is stored under a fresh id; on failure nothing changes |
| UniversityService.UniversityTable.Update | internal/repository/university_repository.go:44-52 | on success row id becomes the merge of the update's non-zero fields; on failure nothing changes |
| UniversityService.ReviewTable.SetReview | internal/repository/review_repository.go:28-33 | on success exactly the review is appended |
| UniversityService.AddUniversity | internal/service/university_service.go:34-55 | "failed to create university" writes nothing; on success the new record, with its slug, is stored and returned with its id |
| UniversityService.UpdateUniversity | internal/service/university_service.go:57-81 | "university not found" writes nothing; "failed to update university" writes nothing; on success the stored row is the merge of the overwritten row |
| UniversityService.Reviewed | internal/service/university_service.go:112-126 | nil counters count as 0; the review count becomes the old count + 1; the rating is RatingAsWritten of the old rating and count; no other field changes |
| UniversityService.ReviewedNeverDrops | internal/service/university_service.go:112-126 | with a non-negative rating and stars, the stored rating is the old one plus stars/(count+1), so a review never lowers it |
| UniversityService.ReviewedIsNotTheAverage | internal/service/university_service.go:112-126 | a university rated 5 after one review keeps 5 after a one-star review, with two reviews counted |
| UniversityService.FirstReviewSetsRating | internal/service/university_service.go:112-126 | a never-reviewed university gets the stars as its rating and a review count of 1 |
| UniversityService.AddReview | internal/service/university_service.go:95-133 | "failed to create review" writes nothing; the review is then stored even if the later lookup fails with "university not found"; "failed to update university rating" leaves the university unchanged; on success the university is Reviewed, with the rating formula as written |
| UserService.Matches | internal/service/user_service.go:40 | an empty query matches every user; a matching query is no longer than the username |
| UserService.MatchingUsers | internal/service/user_service.go:38-43 | every kept user comes from the input and matches, and no more users are kept than given |
| UserService.MatchesIsSubstring | internal/service/user_service.go:40 | a user matches iff the lower-cased query is a substring of the lower-cased username |
| UserService.MatchesIgnoresCase | internal/service/user_service.go:40 | matching is unchanged by lower-casing either the query or the username |
| UserService.MatchingCounts | internal/service/user_service.go:38-43 | each matching user is kept once per occurrence, and others are dropped |
| UserService.MatchingAppend | internal/service/user_service.go:38-43 | filtering keeps the input's order: it distributes over concatenation |
| UserService.EmptyQueryMatchesAll | internal/service/user_service.go:40 | an empty query returns every user, in order |
| UserService.SearchUsers | internal/service/user_service.go:32-50 | a repository error is returned unchanged; no match gives "no users found"; otherwise exactly the matching users |
| UserService.UserTable.GetByID | internal/repository/user_repository.go:44-52 | returns the user iff the query succeeds and the id exists |
| UserService.UserTable.CreateFollow | internal/repository/user_repository.go:37-42 | on success exactly the follow is appended |
| UserService.FollowUser | internal/service/user_service.go:89-104 | "target user not found" creates no follow; "error following user" creates none; success appends exactly (current user, target) |
| Notifications.NotificationTable.Create | internal/repository/notification_repository.go:26-31 | on success exactly the notification is appended; on failure the error is wrapped and nothing is written |
| PostService.PostTable.Create | internal/repository/post_repository.go:27-32 | on success the post is stored under a fresh id; on failure nothing changes |
| PostService.PostTable.GetDetail | internal/repository/post_repository.go:34-42 | returns the post iff the query succeeds and the id exists; a missing id gives the wrapped not-found error |
| PostService.PostTable.Update | internal/repository/post_repository.go:51-59 | on success row id is the saved post; on failure the error is wrapped and nothing is written |
| PostService.CreatedEvent | internal/service/post_service.go:74-84 | the "post.created" event names the new post's id and copies the user, community, title and description |
| PostService.CreatePost | internal/service/post_service.go:59-102 | create, then count, then marshal, then publish, each failure with its own message; a failed create touches neither the count nor the broker; later failures leave the post stored; the publish goes to ExchangeName under PostCreatedRoutingKey |
| PostService.AddLike | internal/service/post_service.go:175-186 | after a like the user is in the list; nobody is dropped and no one else is added |
| PostService.AddLikeIdempotent | internal/service/post_service.go:175-189 | liking twice equals liking once; a like adds at most one entry, and the user appears once when newly added |
| PostService.AlreadyLiked | internal/service/post_service.go:175-179 | the scan finds the user iff the user is in the like list |
| PostService.LikedEvent | internal/service/post_service.go:191-199 | the "post.liked" event names the post, its owner and the liker |
| PostService.LikeNotification | internal/service/post_service.go:216-224 | the notification goes to the post owner from the liker, with type "like", the message `username liked your post: title`, and unread |
| PostService.LookupErrorAsWritten | internal/service/post_service.go:167-173 | as written: only the bare not-found error becomes "post not found"; every other error, a wrapped not-found included, passes through unchanged |
| PostService.LookupError | internal/service/post_service.go:167-173 | the corrected half of the lookup finding (not used by LikePost): any not-found lookup error, wrapped or not, becomes "post not found"; other errors pass through unchanged |
| PostService.LookupErrorNeverNotFound | internal/service/post_service.go:167-173 | as written, the repository's wrapped not-found error is never turned into "post not found"; the corrected check does turn it |
| PostService.LikePost | internal/service/post_service.go:166-225 | a failed lookup ends the call with LookupErrorAsWritten of its error, so a missing post returns the wrapped "failed to get post detail: record not found" and never "post not found"; an existing like gives success with nothing written, published or notified; otherwise, in order: the liker lookup ("user not found"), the save of exactly one appended like, marshal, publish to PostLikedRoutingKey, and the owner's notification, each failure ending the call with its own error |
| PostService.FollowedPostsMembers | internal/service/post_service.go:151-156 | a post is in the followed part iff some follow's successful lookup lists it |
| PostService.FollowedPostsAllFailed | internal/service/post_service.go:151-156 | follows whose lookups all fail contribute nothing |
| PostService.GetTimelinePosts | internal/service/post_service.go:130-164 | errors from the own-posts and follows queries are returned unchanged; the timeline is the own posts as a prefix followed by the posts of each follow's lookup, in follow order, one lookup per follow |
| CommentService.CommentTable.Create | internal/repository/comment_repository.go:29-35 | on success exactly the comment, under a fresh id, is appended |
| CommentService.NewComment | internal/service/comment_service.go:46-51 | the comment copies the user, post, parent and content from the request |
| CommentService.CommentNotification | internal/service/comment_service.go:59-67 | the notification goes to the post owner from the commenter, naming the post and the new comment, with type "comment", unread |
| CommentService.AddComment | internal/service/comment_service.go:40-75 | "post not found" writes nothing; "error creating comment" writes nothing; a notification is created iff the commenter is not the owner; "error creating notification" leaves the comment stored |
| CommentService.Children | internal/repository/comment_repository.go:55-64 | the replies query returns exactly the rows whose parent is the given id |
| CommentService.GetReplies | internal/repository/comment_repository.go:55-64 | a failing query is wrapped as "failed to get replies"; otherwise it returns the children |
| CommentService.ReplyTree | internal/service/comment_service.go:94-108 | an error always comes from some failing query; on success the top level is as long as the direct children |
| CommentService.Attach | internal/service/comment_service.go:100-106 | an error always comes from some failing query; on success there is one entry per child |
| CommentService.AttachShape | internal/service/comment_service.go:100-106 | attaching succeeds iff every child's tree does, and then entry i is child i carrying its tree |
| CommentService.ReplyTreeShape | internal/service/comment_service.go:94-110 | the tree is the direct children, each carrying its own tree; it succeeds iff the query and every child's tree succeed |
| CommentService.FetchReplies | internal/service/comment_service.go:94-108 | the in-place recursive fetch computes exactly ReplyTree |
| CommentService.ShowReplies | internal/service/comment_service.go:92-111 | the result is the reply tree under the requested parent; any error comes from a failing query |
| FileService.Ext | internal/service/file_service.go:36 | the extension is a suffix of the path; if non-empty it is one dot followed by no dot or '/'; if empty, every dot of the path lies before a '/' |
| FileService.ExtOfSuffix | internal/service/file_service.go:36 | a name ending in ".x", where x has no dot or '/', has extension ".x" whatever precedes it |
| FileService.ExtOfDotlessElement | internal/service/file_service.go:36 | a final path element without a dot has no extension, even if a directory has one |
| FileService.UpperCaseRefused | internal/service/file_service.go:25-37 | ".JPG" is refused and ".jpg" accepted: the check is case-sensitive |
| FileService.StorageKey | internal/service/file_service.go:41 | the key is "uploads/" followed by the file name, which it gives back past its first 8 characters |
| FileService.ObjectUrl | internal/service/file_service.go:52-57 | the URL is the bucket prefix formatted from the constant names, followed by the key |
| FileService.UrlNamesTheFile | internal/service/file_service.go:41-57 | the URL gives back the storage key and, after "uploads/", the file name |
| FileService.UploadFile | internal/service/file_service.go:35-60 | an upload happens iff the extension is allowed and the payload is a reader, under "uploads/" + name; "file type not allowed" is checked first, then "invalid file reader"; an upload error is returned unchanged; success gives the URL |

## Left out

- The reconnect and channel-recreation goroutines of the broker wrapper
  (util/queue/rabbitmq.go:34-58, 78-98) and `Close` are not modelled. They
  are concurrent retry loops with sleeps, with no sequential contract.
- `HandleWebSocket` (util/websocket/websocket.go:53-73) is left out. Its
  upgrade, read loop and channel sends are network I/O and concurrency.
  `Hub.Run` is modelled as a step function over the events it receives.
- Websocket.Hub.Broadcast differs from the code on a failed write.
  - The code sends on the hub's own unbuffered Unregister channel from inside
    its only receiver (util/websocket/websocket.go:45), which would block
    forever.
  - It would also close the connection twice (:46 and :39).
  - The model closes a failing connection once, at its failed write, and
    removes it after the pass.
- JSON encoding is an abstract `marshal` function that may fail. The post
  paths marshal the event to bytes and `PublishMessage` marshals those bytes
  again, so the wire body is a JSON-encoded byte string. The model keeps
  both marshal steps but not the encoding.
- PostService.GetTimelinePosts models only a cache miss. The Redis read and
  the cache write with its TTL are left out. The cache read is given its
  target by value (internal/service/post_service.go:137), so it never yields
  data.
- Text.ToLower folds ASCII letters only. Unicode case folding is not modelled
  for slugs or search.
- The HTTP handlers, router, controllers, auth, and the location, moderator,
  notification, report and conversation services are not modelled. They are
  request parsing, wiring, foreign cryptography or one-call pass-throughs.
- Not modelled: the pass-through operations `GetCommunities`,
  `DeleteCommunity`, `GetCommunityDetail`, `GetUserJoinedCommunities`,
  `GetCommunityPosts`' execution, `GetPostDetail`, `GetUserPosts`,
  `UpdatePost`, `DeletePost`, `ShowCommentsByPost`, `DeleteComment`,
  `GetUniversityDetail`, `GetUniversities`, `GetUniversityReviews`,
  `GetUserDetail`, `CreateUser`, `UpdateUser` and `GetFollowers`. Each is
  one repository call with an error message. `BuildPostsQuery` stops at the
  query it builds.
- Go's 64-bit `int` overflow is not modelled. All integers are unbounded.
- internal/model/university.go and internal/model/post.go are not part of
  this model. The university record holds the fields the service reads and
  writes. A post's likes are the liking users' ids, and saving a post stores
  its like list; gorm's association handling is not modelled.
- The values of the search exchange and the sync routing key are left open
  (`Constants.SearchExchange`, `Constants.SearchSyncRoutingKey`). The
  constant package the publisher refers to does not define them.
- `time.Now().Unix()` is the parameter `now`. Object storage is represented
  by its error, and the S3 client itself is not modelled.
- CommunityService.JoinCommunity does not model the `community == nil` branch
  (internal/service/community_service.go:89-91). The repository reports a
  missing community as an error and never returns nil without one, so that
  branch cannot run.
- PostService.PostTable.Update requires the post to exist. LikePost only
  saves a post it has just fetched, which is the only use modelled.
- CommentService.ShowReplies requires an acyclic parent relation, given as a
  ghost rank. On a cycle the code recurses without end.
- CommunityRepository.BuildPostsQuery leaves the order of the per-key
  conditions unspecified, because Go's map iteration order is random.

## Findings

| source | as written | input that shows it | evidently intended | confidence | as-written member | corrected member |
|---|---|---|---|---|---|---|
| internal/service/university_service.go:122-123 | the old rating is multiplied by the total after the increment: `(rating*newTotal + stars) / newTotal` | rating 5 with 1 earlier review, and a 1-star review: as written 5 (should be 3); a 5-star review gives 7 (should be 5). For non-negative inputs the rating never drops | the running average `(rating*oldTotal + stars) / newTotal` | not executed | UniversityService.AsWrittenInflates | UniversityService.NewRatingBetween |
| internal/service/post_service.go:167-173 | the lookup error is compared with `gorm.ErrRecordNotFound` by `==`, but the repository wraps it (internal/repository/post_repository.go:38) | any missing post id: the result is "failed to get post detail: record not found", never "post not found" | `errors.Is(err, gorm.ErrRecordNotFound)` | not executed | PostService.LookupErrorNeverNotFound | PostService.LookupError |
