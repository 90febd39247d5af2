/**
 * The candidate collector as values: what one page of search results does to
 * the candidate list (ScanPage), what the paging loop does with a sequence of
 * API responses (Collect), and the whole collector call including its page-size
 * computation and zero-capacity exit (Search). Both collectors of the program,
 * by profile and by tweet, share these definitions: they differ only in the page
 * size limit and in how the next page is asked for.
 */
module Collector {
  import opened Users

  /** Page size limit of the user search endpoint. */
  const USER_PAGE_LIMIT := 20
  /** Page size limit of the tweet search endpoint. */
  const TWEET_PAGE_LIMIT := 100

  /**
   * One answer of a search endpoint: a page of users (for tweet search, the
   * authors of the returned tweets, in order) or a transport error.
   */
  datatype Response = Page(users: seq<User>) | Failure(message: string)

  /**
   * The answer to the k-th request of a search. Past the last given answer the
   * endpoint has nothing more and answers with an empty page.
   */
  function Fetch(responses: seq<Response>, k: nat): Response {
    if k < |responses| then responses[k] else Page([])
  }

  /** The users of the given pages, page after page, in order. */
  function UsersOf(responses: seq<Response>): seq<User> {
    if responses == [] then []
    else
      (match responses[0] case Page(users) => users case Failure(_) => []) + UsersOf(responses[1..])
  }

  function Min(a: int, b: int): int {
    if a > b then b else a
  }

  /** A user is known when its id is among the friends or among the candidates. */
  predicate Known(friends: seq<User>, list: seq<User>, user: User) {
    ContainsId(friends, user.id) || ContainsId(list, user.id)
  }

  /**
   * The candidate list after one page has been scanned: each unknown user is
   * appended, unless the list already holds `max` users, in which case the rest
   * of the page is dropped.
   */
  function ScanPage(friends: seq<User>, list: seq<User>, max: int, page: seq<User>): (r: seq<User>)
    ensures |list| <= |r| <= |list| + |page| && r[..|list|] == list
    decreases |page|
  {
    if page == [] then list
    else if Known(friends, list, page[0]) then ScanPage(friends, list, max, page[1..])
    else if |list| >= max then list
    else ScanPage(friends, list + [page[0]], max, page[1..])
  }

  /**
   * ScanPage only appends, and what it appends is taken from the page in page
   * order; it never takes the list past `max`, and adds nothing to a list that
   * is already at or over `max`.
   */
  lemma {:induction false} ScanPageAppends(friends: seq<User>, list: seq<User>, max: int, page: seq<User>)
    ensures var r := ScanPage(friends, list, max, page);
      |list| <= |r| && r[..|list|] == list && SubsequenceOf(r[|list|..], page)
    ensures |list| <= max ==> |ScanPage(friends, list, max, page)| <= max
    ensures |list| >= max ==> ScanPage(friends, list, max, page) == list
    decreases |page|
  {
    if page != [] {
      var r := ScanPage(friends, list, max, page);
      if Known(friends, list, page[0]) {
        ScanPageAppends(friends, list, max, page[1..]);
      } else if |list| < max {
        var next := list + [page[0]];
        ScanPageAppends(friends, next, max, page[1..]);
        assert r[..|next|] == next;
        assert r[..|list|] == next[..|list|] == list;
        var s := r[|list|..];
        assert s[0] == page[0];
        assert s[1..] == r[|next|..];
      }
    }
  }

  /**
   * ScanPage keeps the candidate list free of duplicate ids and free of
   * friends.
   */
  lemma {:induction false} ScanPageKeepsInvariant(friends: seq<User>, list: seq<User>, max: int, page: seq<User>)
    requires DistinctIds(list) && NoneKnownTo(list, friends)
    ensures var r := ScanPage(friends, list, max, page);
      DistinctIds(r) && NoneKnownTo(r, friends)
    decreases |page|
  {
    if page != [] {
      if Known(friends, list, page[0]) {
        ScanPageKeepsInvariant(friends, list, max, page[1..]);
      } else if |list| < max {
        var next := list + [page[0]];
        assert DistinctIds(next) by {
          forall i, j | 0 <= i < j < |next| ensures next[i].id != next[j].id {
            if j == |list| {
              assert next[i] == list[i];
            }
          }
        }
        ScanPageKeepsInvariant(friends, next, max, page[1..]);
      }
    }
  }

  /**
   * Unless the list reached `max`, nothing unknown is dropped: afterwards every
   * user of the page is a friend or a candidate.
   */
  lemma {:induction false} ScanPageComplete(friends: seq<User>, list: seq<User>, max: int, page: seq<User>)
    ensures var r := ScanPage(friends, list, max, page);
      |r| < max ==> forall i :: 0 <= i < |page| ==> Known(friends, r, page[i])
    decreases |page|
  {
    if page != [] {
      var r := ScanPage(friends, list, max, page);
      var next := if Known(friends, list, page[0]) then list else list + [page[0]];
      if Known(friends, list, page[0]) || |list| < max {
        assert r == ScanPage(friends, next, max, page[1..]);
        ScanPageComplete(friends, next, max, page[1..]);
        ScanPageAppends(friends, next, max, page[1..]);
        if |r| < max {
          assert Known(friends, next, page[0]) by {
            if !ContainsId(friends, page[0].id) {
              assert next[|next| - 1] == page[0] || ContainsId(list, page[0].id);
              if ContainsId(list, page[0].id) {
                assert next[..|list|] == list;
                PrefixKeepsIds(list, next, page[0].id);
              }
            }
          }
          forall i | 0 <= i < |page| ensures Known(friends, r, page[i]) {
            if i == 0 {
              if ContainsId(next, page[0].id) {
                PrefixKeepsIds(next, r, page[0].id);
              }
            } else {
              assert page[i] == page[1..][i - 1];
            }
          }
        }
      }
    }
  }

  /**
   * Scanning two pages one after the other is scanning their concatenation:
   * once the list is full, further pages add nothing.
   */
  lemma {:induction false} ScanPageConcat(friends: seq<User>, list: seq<User>, max: int, p: seq<User>, q: seq<User>)
    ensures ScanPage(friends, list, max, p + q) == ScanPage(friends, ScanPage(friends, list, max, p), max, q)
    decreases |p|
  {
    if p == [] {
      assert p + q == q;
    } else {
      assert (p + q)[0] == p[0];
      assert (p + q)[1..] == p[1..] + q;
      if Known(friends, list, p[0]) {
        ScanPageConcat(friends, list, max, p[1..], q);
      } else if |list| >= max {
        ScanPageAppends(friends, list, max, q);
      } else {
        ScanPageConcat(friends, list + [p[0]], max, p[1..], q);
      }
    }
  }

  /**
   * The result of a collector call: the new candidate list, the number of users
   * the call reports as added, the transport error if any, and the number of
   * search requests it issued.
   */
  datatype Outcome = Outcome(list: seq<User>, added: int, err: Option<string>, calls: nat)

  /**
   * The paging loop with a fixed requested page size `count`: scan each page in
   * turn; stop on a transport error (reporting 0 added, while the additions
   * already made stay in the list), on a page whose length is not `count`, or
   * once the list holds `max` users.
   */
  function Collect(friends: seq<User>, list: seq<User>, max: int, count: int, responses: seq<Response>): (o: Outcome)
    requires count != 0
    ensures 1 <= o.calls <= |responses| + 1
    ensures o.err.Some? ==> o.calls <= |responses| && o.added == 0 && responses[o.calls - 1] == Failure(o.err.value)
    ensures o.err.None? ==> o.added == |o.list| - |list|
    decreases |responses|
  {
    match Fetch(responses, 0)
    case Failure(message) => Outcome(list, 0, Some(message), 1)
    case Page(users) =>
      var next := ScanPage(friends, list, max, users);
      if |users| != count || |next| >= max then Outcome(next, |next| - |list|, None, 1)
      else
        var rest := Collect(friends, next, max, count, responses[1..]);
        Outcome(rest.list, if rest.err.None? then rest.added + (|next| - |list|) else 0, rest.err, rest.calls + 1)
  }

  /**
   * The number of responses whose page a collector call scanned: every request
   * it issued except a failed last one, and except requests past the end of the
   * given responses (those answered with an empty page).
   */
  function Delivered(o: Outcome, given: nat): int {
    if o.err.Some? then o.calls - 1 else Min(o.calls, given)
  }

  /**
   * The paging loop is the page scan applied to the concatenation of the pages
   * it received, in the order it received them.
   */
  lemma {:induction false} CollectScansDelivered(friends: seq<User>, list: seq<User>, max: int, count: int, responses: seq<Response>)
    requires count != 0
    ensures var o := Collect(friends, list, max, count, responses);
      var n := Delivered(o, |responses|);
      0 <= n <= |responses| && (forall i :: 0 <= i < n ==> responses[i].Page?) &&
      o.list == ScanPage(friends, list, max, UsersOf(responses[..n]))
    decreases |responses|
  {
    var o := Collect(friends, list, max, count, responses);
    if responses != [] {
      match responses[0]
      case Failure(_) =>
      case Page(users) =>
        var next := ScanPage(friends, list, max, users);
        assert responses[..1] == [responses[0]];
        assert UsersOf(responses[..1]) == users + UsersOf([]);
        assert users + [] == users;
        if |users| == count && |next| < max {
          var rest := Collect(friends, next, max, count, responses[1..]);
          CollectScansDelivered(friends, next, max, count, responses[1..]);
          var m := Delivered(rest, |responses| - 1);
          assert Delivered(o, |responses|) == m + 1;
          var taken := responses[..m + 1];
          assert taken[0] == responses[0];
          assert taken[1..] == responses[1..][..m];
          assert UsersOf(taken) == users + UsersOf(responses[1..][..m]);
          ScanPageConcat(friends, list, max, users, UsersOf(responses[1..][..m]));
        }
    }
  }

  /**
   * The paging loop asks for another page only while the list is below `max`:
   * the pages received before the last request left the list below `max`.
   */
  lemma {:induction false} CollectBelowCapBeforeLast(friends: seq<User>, list: seq<User>, max: int, count: int, responses: seq<Response>)
    requires count != 0
    ensures var o := Collect(friends, list, max, count, responses);
      forall k :: 0 < k < o.calls ==>
        k <= |responses| && |ScanPage(friends, list, max, UsersOf(responses[..k]))| < max
    decreases |responses|
  {
    var o := Collect(friends, list, max, count, responses);
    if responses != [] && responses[0].Page? {
      var users := responses[0].users;
      var next := ScanPage(friends, list, max, users);
      if |users| == count && |next| < max {
        CollectBelowCapBeforeLast(friends, next, max, count, responses[1..]);
        forall k | 0 < k < o.calls
          ensures k <= |responses| && |ScanPage(friends, list, max, UsersOf(responses[..k]))| < max
        {
          var taken := responses[..k];
          assert taken[0] == responses[0];
          assert taken[1..] == responses[1..][..k - 1];
          assert UsersOf(taken) == users + UsersOf(responses[1..][..k - 1]);
          ScanPageConcat(friends, list, max, users, UsersOf(responses[1..][..k - 1]));
          if k == 1 {
            assert UsersOf(responses[1..][..0]) == [];
          }
        }
      }
    }
  }

  /**
   * Every page but the last one requested was a full page of `count` users and
   * left the list below `max` users; the last one requested, unless it failed,
   * was short or left the list holding `max` users.
   */
  lemma {:induction false} CollectStopsAtShortPage(friends: seq<User>, list: seq<User>, max: int, count: int, responses: seq<Response>)
    requires count != 0
    ensures var o := Collect(friends, list, max, count, responses);
      (forall i :: 0 <= i < o.calls - 1 ==>
         i < |responses| && responses[i].Page? && |responses[i].users| == count) &&
      (forall k :: 0 < k < o.calls ==>
         k <= |responses| && |ScanPage(friends, list, max, UsersOf(responses[..k]))| < max) &&
      (o.err.None? && o.calls <= |responses| ==>
         responses[o.calls - 1].Page? && (|responses[o.calls - 1].users| != count || |o.list| >= max))
    decreases |responses|
  {
    var o := Collect(friends, list, max, count, responses);
    CollectBelowCapBeforeLast(friends, list, max, count, responses);
    if responses != [] {
      match responses[0]
      case Failure(_) =>
      case Page(users) =>
        var next := ScanPage(friends, list, max, users);
        if |users| == count && |next| < max {
          CollectStopsAtShortPage(friends, next, max, count, responses[1..]);
          forall i | 0 <= i < o.calls - 1
            ensures i < |responses| && responses[i].Page? && |responses[i].users| == count
          {
            if i > 0 {
              assert responses[i] == responses[1..][i - 1];
            }
          }
          if o.err.None? && o.calls <= |responses| {
            assert responses[o.calls - 1] == responses[1..][o.calls - 2];
          }
        }
    }
  }

  /**
   * One collector call: the requested page size is the endpoint's limit or the
   * remaining capacity `max - |list|`, whichever is smaller, fixed for the whole
   * call. When it is exactly 0 the call issues no search and changes nothing.
   */
  function Search(friends: seq<User>, list: seq<User>, max: int, limit: int, responses: seq<Response>): (o: Outcome)
    ensures o.calls == 0 <==> Min(limit, max - |list|) == 0
    ensures o.calls == 0 ==> o.list == list && o.added == 0 && o.err == None
    ensures o.err.Some? ==> 1 <= o.calls <= |responses| && responses[o.calls - 1] == Failure(o.err.value)
  {
    var count := Min(limit, max - |list|);
    if count == 0 then Outcome(list, 0, None, 0)
    else Collect(friends, list, max, count, responses)
  }

  /**
   * A collector call leaves the candidate list as the page scan of the pages it
   * received would.
   */
  lemma SearchScansDelivered(friends: seq<User>, list: seq<User>, max: int, limit: int, responses: seq<Response>)
    ensures var o := Search(friends, list, max, limit, responses);
      var n := Delivered(o, |responses|);
      0 <= n <= |responses| && (forall i :: 0 <= i < n ==> responses[i].Page?) &&
      o.list == ScanPage(friends, list, max, UsersOf(responses[..n]))
  {
    var count := Min(limit, max - |list|);
    if count != 0 {
      CollectScansDelivered(friends, list, max, count, responses);
    } else {
      assert UsersOf(responses[..0]) == [];
    }
  }

  /**
   * A collector call only appends: the old list is an unchanged prefix, the
   * appended users come from the received pages in result order, and on success
   * the reported count is the number of users appended (on failure it is 0).
   */
  lemma SearchAppendsOnly(friends: seq<User>, list: seq<User>, max: int, limit: int, responses: seq<Response>)
    ensures var o := Search(friends, list, max, limit, responses);
      |list| <= |o.list| && o.list[..|list|] == list
    ensures var o := Search(friends, list, max, limit, responses);
      var n := Delivered(o, |responses|);
      0 <= n <= |responses| && SubsequenceOf(o.list[|list|..], UsersOf(responses[..n]))
    ensures var o := Search(friends, list, max, limit, responses);
      var n := Delivered(o, |responses|);
      0 <= n <= |responses| && forall u :: u in o.list[|list|..] ==> u in UsersOf(responses[..n])
    ensures var o := Search(friends, list, max, limit, responses);
      (o.err.None? ==> o.added == |o.list| - |list|) && (o.err.Some? ==> o.added == 0)
  {
    var o := Search(friends, list, max, limit, responses);
    SearchScansDelivered(friends, list, max, limit, responses);
    var n := Delivered(o, |responses|);
    ScanPageAppends(friends, list, max, UsersOf(responses[..n]));
    SubsequenceElements(o.list[|list|..], UsersOf(responses[..n]));
  }

  /**
   * A collector call keeps the list within `max` when it starts within it, and
   * adds nothing to a list already at or over `max`.
   */
  lemma SearchRespectsCap(friends: seq<User>, list: seq<User>, max: int, limit: int, responses: seq<Response>)
    ensures var o := Search(friends, list, max, limit, responses);
      |list| <= max ==> |o.list| <= max
    ensures var o := Search(friends, list, max, limit, responses);
      |list| >= max ==> o.list == list && o.added == 0
  {
    var o := Search(friends, list, max, limit, responses);
    SearchScansDelivered(friends, list, max, limit, responses);
    var n := Delivered(o, |responses|);
    ScanPageAppends(friends, list, max, UsersOf(responses[..n]));
  }

  /**
   * A collector call keeps the candidate list free of duplicate ids and free of
   * friends.
   */
  lemma SearchKeepsInvariant(friends: seq<User>, list: seq<User>, max: int, limit: int, responses: seq<Response>)
    requires DistinctIds(list) && NoneKnownTo(list, friends)
    ensures var o := Search(friends, list, max, limit, responses);
      DistinctIds(o.list) && NoneKnownTo(o.list, friends)
  {
    var o := Search(friends, list, max, limit, responses);
    SearchScansDelivered(friends, list, max, limit, responses);
    var n := Delivered(o, |responses|);
    ScanPageKeepsInvariant(friends, list, max, UsersOf(responses[..n]));
  }

  /**
   * Unless the list reached `max`, a collector call drops no unknown user of the
   * pages it received: afterwards each of them is a friend or a candidate.
   */
  lemma SearchComplete(friends: seq<User>, list: seq<User>, max: int, limit: int, responses: seq<Response>)
    ensures var o := Search(friends, list, max, limit, responses);
      var n := Delivered(o, |responses|);
      0 <= n <= |responses| &&
      (|o.list| < max ==> forall u :: u in UsersOf(responses[..n]) ==> Known(friends, o.list, u))
  {
    var o := Search(friends, list, max, limit, responses);
    SearchScansDelivered(friends, list, max, limit, responses);
    var n := Delivered(o, |responses|);
    ScanPageComplete(friends, list, max, UsersOf(responses[..n]));
  }

  /**
   * A collector call requests pages in order and moves to the next page only
   * after a full page that left the list below `max` users: every page but the
   * last one requested holds exactly the requested page size; the last one,
   * unless it failed, was short or left the list holding `max` users.
   */
  lemma SearchStopsAtShortPage(friends: seq<User>, list: seq<User>, max: int, limit: int, responses: seq<Response>)
    ensures var o := Search(friends, list, max, limit, responses);
      var count := Min(limit, max - |list|);
      (forall i :: 0 <= i < o.calls - 1 ==>
         i < |responses| && responses[i].Page? && |responses[i].users| == count) &&
      (forall k :: 0 < k < o.calls ==>
         k <= |responses| && |ScanPage(friends, list, max, UsersOf(responses[..k]))| < max) &&
      (o.err.None? && 0 < o.calls <= |responses| ==>
         responses[o.calls - 1].Page? && (|responses[o.calls - 1].users| != count || |o.list| >= max))
  {
    var count := Min(limit, max - |list|);
    if count != 0 {
      CollectStopsAtShortPage(friends, list, max, count, responses);
    }
  }

  /**
   * Example: user 1 is a friend and the limit is 5. The first page of the user
   * search holds users 1, 2 and 3, fewer than the 5 requested. The candidates
   * become [2, 3], 2 are reported and no second page is requested.
   */
  lemma ShortFirstPageExample()
    ensures var u1, u2, u3 := User(1, "", ""), User(2, "", ""), User(3, "", "");
      Search([u1], [], 5, USER_PAGE_LIMIT, [Page([u1, u2, u3])]) == Outcome([u2, u3], 2, None, 1)
  {
    var u1, u2, u3 := User(1, "", ""), User(2, "", ""), User(3, "", "");
    assert [u1, u2, u3][1..] == [u2, u3] && [u2, u3][1..] == [u3] && [u3][1..] == [];
    assert Known([u1], [], u1);
    assert !Known([u1], [], u2) && !Known([u1], [u2], u3);
    assert [] + [u2] == [u2] && [u2] + [u3] == [u2, u3];
    assert ScanPage([u1], [u2, u3], 5, []) == [u2, u3];
    assert ScanPage([u1], [u2], 5, [u3]) == ScanPage([u1], [u2] + [u3], 5, []);
    assert ScanPage([u1], [], 5, [u2, u3]) == ScanPage([u1], [] + [u2], 5, [u3]);
    assert ScanPage([u1], [], 5, [u1, u2, u3]) == ScanPage([u1], [], 5, [u2, u3]);
  }

  /**
   * Example: the limit is 2 and the first page holds users 4, 5 and 6. Users 4
   * and 5 are appended; the scan stops at user 6 because the list is full.
   */
  lemma CapReachedMidPageExample()
    ensures var u4, u5, u6 := User(4, "", ""), User(5, "", ""), User(6, "", "");
      Search([], [], 2, USER_PAGE_LIMIT, [Page([u4, u5, u6])]) == Outcome([u4, u5], 2, None, 1)
  {
    var u4, u5, u6 := User(4, "", ""), User(5, "", ""), User(6, "", "");
    assert [u4, u5, u6][1..] == [u5, u6] && [u5, u6][1..] == [u6];
    assert !Known([], [], u4) && !Known([], [u4], u5) && !Known([], [u4, u5], u6);
    assert [] + [u4] == [u4] && [u4] + [u5] == [u4, u5];
    assert ScanPage([], [u4, u5], 2, [u6]) == [u4, u5];
    assert ScanPage([], [u4], 2, [u5, u6]) == ScanPage([], [u4] + [u5], 2, [u6]);
    assert ScanPage([], [], 2, [u4, u5, u6]) == ScanPage([], [] + [u4], 2, [u5, u6]);
  }
}
