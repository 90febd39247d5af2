# gofollow: the candidate collector and the follow loop

gofollow searches Twitter for users matching a search term and follows up to
`maxFollow` of them (default 50, clamped to at most 100). It never follows a user
it already follows. It collects candidates in two phases. The first searches
user profiles in pages of at most 20. The second searches tweets in pages of at
most 100 and takes their authors. Each phase appends to one candidate list,
`toFollow`. A user is skipped when its id is already among the friends
(`alreadyFollowing`) or already among the candidates. The program then follows
the candidates in order and stops at the first follow that fails.

This project models that core in Dafny:

- `users.dfy` (module `Users`): the user record; id lookup in a list of users
  (`ContainsId`); the invariants "distinct ids" and "no friend in the list";
  and "subsequence of".
- `collector.dfy` (module `Collector`): the collectors as values.
  - `ScanPage` is what one page does to the candidate list.
  - `Collect` is the paging loop over a sequence of API answers.
  - `Search` is one whole collector call. It includes the page-size computation
    `min(limit, maxFollow - len(toFollow))` and the exit when that size is exactly 0.
  - The lemmas about these functions carry the properties.
- `gofollow.dfy` (module `Gofollow`): the program's global variables
  `alreadyFollowing`, `toFollow` and `maxFollow` are fields of the class `Session`.
  Its methods do what the program does, in place and with the same loops, early
  returns and breaks:
  - `FindUsers` and `FindUsersByTweet` are the two collectors;
  - `AddAuthors` is the page handler closure of the tweet collector;
  - `ClampMaxFollow` is the clamp;
  - `FollowAll` is the follow loop;
  - `Run` is the driver.
  The `ensures` clause of each collector method ties its new state and its
  results to `Search`.

The Twitter API is given as data:
- The friends list is a `seq<User>`.
- Each search endpoint is a `seq<Response>`: its answers in request order. Each
  answer is a page of users or a transport error. For tweet search, a page holds
  the authors of the returned tweets.
- A request past the last given answer gets an empty page. This is a modelling
  assumption: an empty page is a short page, so every loop of the model stops
  there. The tweet cursor does answer this way when there is no next page. The
  profile search sends an explicit page number instead, and nothing in the
  program bounds its loop.
- Follow requests are given as the set of user ids whose follow fails. The
  candidate ids are distinct, so this set can express any pattern of successes
  and failures over one follow loop.

Both collectors behave the same as seen from outside, and `Search` specifies
both. `findUsers` returns from inside the page loop when an unknown user arrives
while the list is full. The tweet collector's closure returns only from itself,
but the cap check right after it then breaks out of the paging loop. Each method
keeps its own control flow; `Search` has one parameter for the page-size limit
(20 or 100).

Where the code does something one might not expect, the model follows the code:
- A search is skipped only when `maxFollow - len(toFollow)` is exactly 0. The
  flag has no lower clamp, so a negative `maxFollow` gives a negative page size.
  A search is then still issued, but nothing is added (`Search`'s first
  `ensures`, `SearchRespectsCap`).
- The friends are kept as a list of users and compared by id, as the code
  does, rather than as a set of ids.

## Model

| member | source | states |
|---|---|---|
| `Users.ContainsId` | gofollow.go:273-283 | The linear scan over a user list is true exactly when some element has the given id. |
| `Gofollow.Session.IsFollowing` | gofollow.go:272-284 | A user counts as known exactly when some element of `alreadyFollowing` or of `toFollow` has its id. As a function it changes no state. |
| `Gofollow.Session.constructor` | gofollow.go:52-60 | The program starts with empty friend and candidate lists and with the limit from the command line. |
| `Gofollow.Session.ClampMaxFollow` | gofollow.go:73-76 | Afterwards `maxFollow` is at most 100. A value at or below 100 is left untouched; a larger one becomes exactly 100. There is no lower clamp. |
| `Collector.ScanPage` | gofollow.go:189-197 | One page scan only appends to the list, at most one user per page entry, and leaves the old list as an unchanged prefix. It models the page loop of `findUsers` and the body of the tweet collector's closure (gofollow.go:231-239). |
| `Collector.ScanPageAppends` | gofollow.go:189-197 | One page only appends to the list, and the appended users are a subsequence of the page, in page order. A list within `maxFollow` stays within it, and a list already at or over `maxFollow` gets nothing. |
| `Collector.ScanPageKeepsInvariant` | gofollow.go:189-197 | One page keeps the list free of duplicate ids and free of friends, because only users that fail the known-check are appended. |
| `Collector.ScanPageComplete` | gofollow.go:189-197 | Unless the list reached `maxFollow`, no unknown user of the page is dropped: afterwards every user of the page is a friend or a candidate. |
| `Collector.ScanPageConcat` | gofollow.go:183-205 | Scanning two pages one after the other equals scanning their concatenation. Once the list is full, later pages add nothing. |
| `Collector.Collect` | gofollow.go:182-207 | The paging loop issues at least one request and at most one more than the given answers. An error is reported only when the last request was answered with a transport error, carries that answer's message, and comes with 0 added. On success the reported count equals the growth of the list. |
| `Collector.CollectScansDelivered` | gofollow.go:183-205 | The paging loop's final list equals a scan of the concatenated pages it received, so on an error the additions from earlier pages stay in the list. Those pages are all the requests it issued except a failed last one, and every one of them was a page. |
| `Collector.CollectBelowCapBeforeLast` | gofollow.go:201-203 | Another page is requested only while the list is below `maxFollow`: the pages received before the last request left the list below `maxFollow`. |
| `Collector.CollectStopsAtShortPage` | gofollow.go:198-204 | Every page except the last one requested is full, i.e. exactly the requested size, and left the list below `maxFollow`. The last one, unless it failed, was short or left the list full. |
| `Collector.Search` | gofollow.go:168-176 | No search is issued exactly when `min(limit, maxFollow - len(toFollow))` is 0. In that case the list is unchanged, 0 is reported and there is no error. An error is reported only when the last search issued was answered with a transport error, and it carries that answer's message. |
| `Collector.SearchScansDelivered` | gofollow.go:167-208 | A collector call leaves the list as a scan of the pages it received, which are a prefix of the given answers and all pages. |
| `Collector.SearchAppendsOnly` | gofollow.go:182-207 | A collector call only appends, and the old list is an unchanged prefix. The new users are a subsequence of the received pages, in result order, so every new user comes from a received page. `added` equals the number of users appended on success and is 0 on error. |
| `Collector.SearchRespectsCap` | gofollow.go:191-194 | If the list starts within `maxFollow` it stays within it. If it starts at or over `maxFollow`, it is unchanged and 0 is reported. |
| `Collector.SearchKeepsInvariant` | gofollow.go:190-194 | A collector call keeps `toFollow` free of duplicate ids and disjoint from the friends list. |
| `Collector.SearchComplete` | gofollow.go:189-197 | Unless the list reached `maxFollow`, every user on a received page is afterwards a friend or a candidate. |
| `Collector.SearchStopsAtShortPage` | gofollow.go:198-204 | Pages are requested in order with one fixed size. The next page is requested only after a full page that left the list below `maxFollow` (also gofollow.go:251-253). The last one requested, unless it failed, was short or left the list full. |
| `Collector.ShortFirstPageExample` | gofollow.go:183-205 | With friend 1 and room for 5, a first page [1, 2, 3] gives the candidates [2, 3] and reports 2 added. It is a short page, so it is the only request. |
| `Collector.CapReachedMidPageExample` | gofollow.go:189-197 | With room for 2, a first page [4, 5, 6] gives [4, 5] and reports 2 added; user 6 is dropped because the list is full. |
| `Gofollow.Session.FindUsers` | gofollow.go:167-208 | The new `toFollow`, the count, the error (prefixed `findUsers: `) and the number of searches are those of `Search` with limit 20. The method keeps the invariants, the cap and the old list as a prefix. |
| `Gofollow.Session.AddAuthors` | gofollow.go:230-240 | The closure's effect on `toFollow` is one page scan. Its count is the number of users appended. |
| `Gofollow.Session.FindUsersByTweet` | gofollow.go:213-258 | Same as `FindUsers`, with limit 100, cursor-style paging and the prefix `findUsersByTweet: `. |
| `Gofollow.Session.FollowAll` | gofollow.go:108-117 | `newFriends` is the length of the longest prefix of `toFollow` whose follows succeed, so `newFriends <= len(toFollow)`. At most one follow request is sent after that prefix, the failing one. |
| `Gofollow.Session.Run` | gofollow.go:73-117 | After a run, `maxFollow` is the clamped limit and the candidate list keeps its invariants. The list is within `maxFollow`, or empty when `maxFollow` is negative. An error in either collector is fatal, and the list is then what the collectors left. Without an error, the run ends with "nothing found" exactly when the list is empty. Otherwise it follows the candidates, and its summary counts the longest prefix of candidates whose follows succeed. |

## Left out

- `newTwitterAPI` (gofollow.go:123-147) is not modelled: it reads credentials from environment variables and verifies them over the network.
- `spinner` (gofollow.go:150-162) and its stop channel are not modelled: they only display progress.
- `getAllFriends` (gofollow.go:261-268) is not modelled: it drains the API client's friends stream. `Run` takes its result as the `friends` parameter.
- `followUser` (gofollow.go:290-296) and the search calls `GetUserSearch`, `GetSearch` and `GetNext` are not modelled: they are calls into the API client. They are replaced by the answer sequences and the set of rejected ids described above.
- Flag parsing is not modelled, nor the exit when the search term is empty, all console output, the profile URL format, or `log.Fatal` / `os.Exit`. `Run` returns a `RunResult` instead of printing and exiting.
- The search parameters `result_type`, `lang` and `include_entities` are not modelled, and neither is the exact wording of wrapped errors: `%v` formatting is written as string concatenation.
- Each search endpoint is given finitely many answers, padded with empty pages. A run in which the profile search keeps returning full pages of already known users never stops in the program, which only ends it at a transport error. Such a run is outside the model.
- The model does not require a page to hold at most the requested number of users: any page an endpoint returns is accepted.
- User ids are unbounded integers instead of int64; only equality is used. User fields other than id, name and screen name are dropped.
- Go's `int` arithmetic in `maxFollow - len(toFollow)` is unbounded in the model. Overflow would need a `maxFollow` near the int minimum.
- In this model the API's answer to a follow request depends only on the user id. Within one follow loop no id is requested twice, so this loses nothing.
