/**
 * The program's state and its steps: the friends list, the candidate list and
 * the follow limit are the fields of a Session; the two collectors append to the
 * candidate list in place; the driver clamps the limit, runs both collectors and
 * follows the candidates in order until the first failure. The Twitter API is
 * given as data: the friends list, the answers of each search endpoint in
 * request order, and the set of user ids whose follow request fails.
 */
module Gofollow {
  import opened Users
  import opened Collector

  /** Hard ceiling on the follow limit. */
  const HARD_MAX_FOLLOW := 100

  /** How a run of the program ends. */
  datatype RunResult =
    | Fatal(message: string)
    | NothingFound
    | Followed(found: int, newFriends: int)

  /** An error message wrapped with the name of the operation that failed. */
  function Tagged(operation: string, err: Option<string>): Option<string> {
    match err
    case None => None
    case Some(message) => Some(operation + ": " + message)
  }

  class Session {
    /** Users already followed; filled once at startup. */
    var alreadyFollowing: seq<User>
    /** Candidates to follow, in discovery order. */
    var toFollow: seq<User>
    /** Maximum number of users to follow. */
    var maxFollow: int

    /** The state before main runs: both lists empty, the limit as given on the command line. */
    constructor (maxFlag: int)
      ensures alreadyFollowing == [] && toFollow == [] && maxFollow == maxFlag
    {
      alreadyFollowing := [];
      toFollow := [];
      maxFollow := maxFlag;
    }

    /** The candidate list has distinct ids and holds no friend. */
    ghost predicate Valid()
      reads this
    {
      DistinctIds(toFollow) && NoneKnownTo(toFollow, alreadyFollowing)
    }

    /**
     * A user is already followed or already scheduled to be followed exactly
     * when one of the two lists holds a user with the same id.
     */
    function IsFollowing(user: User): (b: bool)
      reads this
      ensures b <==> ((exists i :: 0 <= i < |alreadyFollowing| && alreadyFollowing[i].id == user.id) ||
                      (exists i :: 0 <= i < |toFollow| && toFollow[i].id == user.id))
    {
      Known(alreadyFollowing, toFollow, user)
    }

    /** Lowers the follow limit to the hard ceiling; a limit at or below it is kept. */
    method ClampMaxFollow()
      modifies this`maxFollow
      ensures maxFollow <= HARD_MAX_FOLLOW
      ensures old(maxFollow) <= HARD_MAX_FOLLOW ==> maxFollow == old(maxFollow)
      ensures old(maxFollow) > HARD_MAX_FOLLOW ==> maxFollow == HARD_MAX_FOLLOW
    {
      if maxFollow > HARD_MAX_FOLLOW {
        maxFollow := HARD_MAX_FOLLOW;
      }
    }

    /**
     * Collector by user search: requests pages 0, 1, 2, ... of at most 20
     * users, appending each unknown user; returns at once when an unknown user
     * arrives while the list is full. `calls` is the number of searches issued.
     */
    method FindUsers(responses: seq<Response>) returns (added: int, err: Option<string>, ghost calls: nat)
      modifies this`toFollow
      ensures var o := Search(alreadyFollowing, old(toFollow), maxFollow, USER_PAGE_LIMIT, responses);
        toFollow == o.list && added == o.added && err == Tagged("findUsers", o.err) && calls == o.calls
      ensures old(Valid()) ==> Valid()
      ensures old(|toFollow|) <= maxFollow ==> |toFollow| <= maxFollow
      ensures old(|toFollow|) >= maxFollow ==> toFollow == old(toFollow) && added == 0
      ensures |old(toFollow)| <= |toFollow| && toFollow[..|old(toFollow)|] == old(toFollow)
    {
      ghost var start := toFollow;
      ghost var o := Search(alreadyFollowing, start, maxFollow, USER_PAGE_LIMIT, responses);

      var maxCount := USER_PAGE_LIMIT;
      // the page size: the endpoint's limit, or the room left if smaller
      var usersRequired := maxFollow - |toFollow|;
      if maxCount > usersRequired {
        maxCount := usersRequired;
      }
      if maxCount == 0 {
        SearchFacts(alreadyFollowing, start, maxFollow, USER_PAGE_LIMIT, responses);
        return 0, None, 0;
      }
      var page := 0;
      added := 0;
      calls := 0;
      assert responses[page..] == responses;
      // what the rest of the paging loop does, from the current page on
      ghost var rest := o;
      while true
        invariant page <= |responses| && calls == page
        invariant added == |toFollow| - |start|
        invariant rest == Collect(alreadyFollowing, toFollow, maxFollow, maxCount, responses[page..])
        invariant rest.list == o.list && rest.err == o.err && page + rest.calls == o.calls
        decreases |responses| - page
      {
        var resp := Fetch(responses, page);
        assert Fetch(responses[page..], 0) == resp;
        calls := calls + 1;
        if resp.Failure? {
          SearchFacts(alreadyFollowing, start, maxFollow, USER_PAGE_LIMIT, responses);
          return 0, Tagged("findUsers", Some(resp.message)), calls;
        }
        var users := resp.users;
        ghost var atPageStart := toFollow;
        for i := 0 to |users|
          invariant ScanPage(alreadyFollowing, atPageStart, maxFollow, users)
                 == ScanPage(alreadyFollowing, toFollow, maxFollow, users[i..])
          invariant added == |toFollow| - |start|
        {
          var user := users[i];
          assert users[i..][1..] == users[i + 1..];
          if !IsFollowing(user) {
            if |toFollow| >= maxFollow { // the list is full
              assert ScanPage(alreadyFollowing, atPageStart, maxFollow, users) == toFollow;
              SearchFacts(alreadyFollowing, start, maxFollow, USER_PAGE_LIMIT, responses);
              return added, None, calls;
            }
            toFollow := toFollow + [user];
            added := added + 1;
          }
        }
        assert users[|users|..] == [];
        if |users| != maxCount { // a short page is the last one
          break;
        }
        if |toFollow| >= maxFollow { // got the number of users required
          break;
        }
        assert responses[page..][1..] == responses[page + 1..];
        rest := Collect(alreadyFollowing, toFollow, maxFollow, maxCount, responses[page + 1..]);
        page := page + 1;
      }
      SearchFacts(alreadyFollowing, start, maxFollow, USER_PAGE_LIMIT, responses);
      return added, None, calls;
    }

    /**
     * The page handler of the tweet collector: appends each unknown author;
     * when an unknown author arrives while the list is full it stops, which
     * ends only this handler, not the collector. Returns the number appended.
     */
    method AddAuthors(authors: seq<User>) returns (n: int)
      modifies this`toFollow
      ensures toFollow == ScanPage(alreadyFollowing, old(toFollow), maxFollow, authors)
      ensures n == |toFollow| - |old(toFollow)|
    {
      n := 0;
      for i := 0 to |authors|
        invariant ScanPage(alreadyFollowing, old(toFollow), maxFollow, authors)
               == ScanPage(alreadyFollowing, toFollow, maxFollow, authors[i..])
        invariant n == |toFollow| - |old(toFollow)|
      {
        var user := authors[i];
        assert authors[i..][1..] == authors[i + 1..];
        if !IsFollowing(user) {
          if |toFollow| >= maxFollow { // the list is full
            return;
          }
          toFollow := toFollow + [user];
          n := n + 1;
        }
      }
      assert authors[|authors|..] == [];
    }

    /**
     * Collector by tweet search: requests tweets in pages of at most 100,
     * following the cursor each answer provides, and hands the authors of each
     * page to AddAuthors. `calls` is the number of searches issued.
     */
    method FindUsersByTweet(responses: seq<Response>) returns (added: int, err: Option<string>, ghost calls: nat)
      modifies this`toFollow
      ensures var o := Search(alreadyFollowing, old(toFollow), maxFollow, TWEET_PAGE_LIMIT, responses);
        toFollow == o.list && added == o.added && err == Tagged("findUsersByTweet", o.err) && calls == o.calls
      ensures old(Valid()) ==> Valid()
      ensures old(|toFollow|) <= maxFollow ==> |toFollow| <= maxFollow
      ensures old(|toFollow|) >= maxFollow ==> toFollow == old(toFollow) && added == 0
      ensures |old(toFollow)| <= |toFollow| && toFollow[..|old(toFollow)|] == old(toFollow)
    {
      ghost var start := toFollow;
      ghost var o := Search(alreadyFollowing, start, maxFollow, TWEET_PAGE_LIMIT, responses);

      var maxCount := TWEET_PAGE_LIMIT;
      // the page size: the endpoint's limit, or the room left if smaller
      var usersRequired := maxFollow - |toFollow|;
      if maxCount > usersRequired {
        maxCount := usersRequired;
      }
      if maxCount == 0 {
        SearchFacts(alreadyFollowing, start, maxFollow, TWEET_PAGE_LIMIT, responses);
        return 0, None, 0;
      }
      added := 0;
      // the cursor: the index of the answer the next request gets
      var cursor := 0;
      var resp := Fetch(responses, cursor);
      cursor := cursor + 1;
      calls := 1;
      assert responses[cursor - 1..] == responses;
      // what the rest of the paging loop does, from the current answer on
      ghost var rest := o;
      while true
        invariant 1 <= cursor <= |responses| + 1 && calls == cursor
        invariant resp == Fetch(responses, cursor - 1)
        invariant added == |toFollow| - |start|
        invariant rest == Collect(alreadyFollowing, toFollow, maxFollow, maxCount, responses[cursor - 1..])
        invariant rest.list == o.list && rest.err == o.err && cursor - 1 + rest.calls == o.calls
        decreases |responses| + 1 - cursor
      {
        assert Fetch(responses[cursor - 1..], 0) == resp;
        if resp.Failure? {
          SearchFacts(alreadyFollowing, start, maxFollow, TWEET_PAGE_LIMIT, responses);
          return 0, Tagged("findUsersByTweet", Some(resp.message)), calls;
        }
        var n := AddAuthors(resp.users);
        added := added + n;
        if |resp.users| != maxCount { // a short page is the last one
          break;
        }
        if |toFollow| >= maxFollow { // got the number of users required
          break;
        }
        assert responses[cursor - 1..][1..] == responses[cursor..];
        rest := Collect(alreadyFollowing, toFollow, maxFollow, maxCount, responses[cursor..]);
        resp := Fetch(responses, cursor);
        cursor := cursor + 1;
        calls := calls + 1;
      }
      SearchFacts(alreadyFollowing, start, maxFollow, TWEET_PAGE_LIMIT, responses);
      return added, None, calls;
    }

    /**
     * The follow loop: follows the candidates in order and stops at the first
     * rejected follow. `newFriends` is the length of the longest prefix of the
     * candidate list whose follows succeed; `attempted` counts the follow
     * requests sent, so none is sent after the first failure.
     */
    method FollowAll(rejected: set<UserId>) returns (newFriends: int, attempted: int)
      ensures 0 <= newFriends <= |toFollow|
      ensures forall i :: 0 <= i < newFriends ==> toFollow[i].id !in rejected
      ensures newFriends < |toFollow| ==> toFollow[newFriends].id in rejected
      ensures attempted == if newFriends < |toFollow| then newFriends + 1 else newFriends
    {
      newFriends := 0;
      attempted := 0;
      for i := 0 to |toFollow|
        invariant newFriends == attempted == i
        invariant forall j :: 0 <= j < i ==> toFollow[j].id !in rejected
      {
        var user := toFollow[i];
        attempted := attempted + 1;
        if user.id in rejected { // could continue, but the failure most likely repeats
          break;
        }
        newFriends := newFriends + 1;
      }
    }

    /**
     * The program from the clamp on: clamp the limit, take the friends list,
     * run both collectors (either error is fatal), stop when nothing was found,
     * and otherwise follow the candidates.
     */
    method Run(friends: seq<User>, userResponses: seq<Response>, tweetResponses: seq<Response>, rejected: set<UserId>)
      returns (result: RunResult)
      requires toFollow == []
      modifies this
      ensures maxFollow <= HARD_MAX_FOLLOW
      ensures old(maxFollow) <= HARD_MAX_FOLLOW ==> maxFollow == old(maxFollow)
      ensures old(maxFollow) > HARD_MAX_FOLLOW ==> maxFollow == HARD_MAX_FOLLOW
      ensures alreadyFollowing == friends
      ensures Valid()
      ensures toFollow == [] || |toFollow| <= maxFollow
      ensures var first := Search(friends, [], maxFollow, USER_PAGE_LIMIT, userResponses);
        first.err.Some? ==> toFollow == first.list && result == Fatal(Tagged("findUsers", first.err).value)
      ensures var first := Search(friends, [], maxFollow, USER_PAGE_LIMIT, userResponses);
        var second := Search(friends, first.list, maxFollow, TWEET_PAGE_LIMIT, tweetResponses);
        first.err.None? ==>
          toFollow == second.list &&
          (second.err.Some? ==> result == Fatal(Tagged("findUsersByTweet", second.err).value)) &&
          (second.err.None? ==> (result == NothingFound <==> second.list == []) &&
                                (second.list != [] ==> result.Followed?))
      ensures result.NothingFound? ==> toFollow == []
      ensures result.Followed? ==>
        result.found == |toFollow| > 0 && 0 <= result.newFriends <= result.found &&
        (forall i :: 0 <= i < result.newFriends ==> toFollow[i].id !in rejected) &&
        (result.newFriends < result.found ==> toFollow[result.newFriends].id in rejected)
    {
      ClampMaxFollow();
      alreadyFollowing := friends;
      var found := 0;
      ghost var calls: nat;
      var n, err;
      n, err, calls := FindUsers(userResponses);
      if err.Some? {
        return Fatal(err.value);
      }
      SearchAppendsOnly(friends, [], maxFollow, USER_PAGE_LIMIT, userResponses);
      found := found + n;
      ghost var afterFirst := toFollow;
      n, err, calls := FindUsersByTweet(tweetResponses);
      if err.Some? {
        return Fatal(err.value);
      }
      SearchAppendsOnly(friends, afterFirst, maxFollow, TWEET_PAGE_LIMIT, tweetResponses);
      found := found + n;
      if found == 0 {
        return NothingFound;
      }
      var newFriends, _ := FollowAll(rejected);
      return Followed(found, newFriends);
    }
  }

  /** The facts about a collector call that the collector methods promise. */
  lemma SearchFacts(friends: seq<User>, list: seq<User>, max: int, limit: int, responses: seq<Response>)
    ensures var o := Search(friends, list, max, limit, responses);
      (DistinctIds(list) && NoneKnownTo(list, friends) ==> DistinctIds(o.list) && NoneKnownTo(o.list, friends)) &&
      (|list| <= max ==> |o.list| <= max) &&
      (|list| >= max ==> o.list == list && o.added == 0) &&
      |list| <= |o.list| && o.list[..|list|] == list
  {
    if DistinctIds(list) && NoneKnownTo(list, friends) {
      SearchKeepsInvariant(friends, list, max, limit, responses);
    }
    SearchRespectsCap(friends, list, max, limit, responses);
    SearchAppendsOnly(friends, list, max, limit, responses);
  }
}
