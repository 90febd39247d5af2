/**
 * Twitter users as the program sees them, and the facts about lists of users
 * that the collectors keep: membership by id, distinct ids, no overlap with the
 * friends list, and "appears in the same order as in" (subsequence).
 */
module Users {

  /** A Twitter user id (an int64 in the API client; only equality is used). */
  type UserId = int

  /** An immutable snapshot of a user as returned by the API. */
  datatype User = User(id: UserId, name: string, screenName: string)

  datatype Option<T> = None | Some(value: T)

  /**
   * Linear scan for a user with the given id; true exactly when one is present.
   */
  function ContainsId(users: seq<User>, id: UserId): (b: bool)
    ensures b <==> exists i :: 0 <= i < |users| && users[i].id == id
  {
    if users == [] then false
    else if users[0].id == id then true
    else
      var b := ContainsId(users[1..], id);
      assert b ==> exists i :: 0 <= i < |users| && users[i].id == id by {
        if b {
          var k :| 0 <= k < |users[1..]| && users[1..][k].id == id;
          assert users[k + 1].id == id;
        }
      }
      b
  }

  /** No id occurs twice. */
  predicate DistinctIds(users: seq<User>) {
    forall i, j :: 0 <= i < j < |users| ==> users[i].id != users[j].id
  }

  /** No user of `users` has an id that occurs in `friends`. */
  predicate NoneKnownTo(users: seq<User>, friends: seq<User>) {
    forall i :: 0 <= i < |users| ==> !ContainsId(friends, users[i].id)
  }

  /** `s` is obtained from `t` by deleting elements, keeping the order of the rest. */
  predicate SubsequenceOf(s: seq<User>, t: seq<User>)
    decreases |t|
  {
    s == [] ||
    (t != [] &&
     ((s[0] == t[0] && SubsequenceOf(s[1..], t[1..])) || SubsequenceOf(s, t[1..])))
  }

  /** Every element of a subsequence is an element of the sequence it was taken from. */
  lemma {:induction false} SubsequenceElements(s: seq<User>, t: seq<User>)
    requires SubsequenceOf(s, t)
    ensures forall x :: x in s ==> x in t
    decreases |t|
  {
    if s != [] {
      if s[0] == t[0] && SubsequenceOf(s[1..], t[1..]) {
        SubsequenceElements(s[1..], t[1..]);
        forall x | x in s ensures x in t {
          if x != s[0] {
            assert x in s[1..];
          }
        }
      } else {
        SubsequenceElements(s, t[1..]);
      }
    }
  }

  /** Whatever is known before an append is still known after it. */
  lemma PrefixKeepsIds(small: seq<User>, large: seq<User>, id: UserId)
    requires |small| <= |large| && large[..|small|] == small
    requires ContainsId(small, id)
    ensures ContainsId(large, id)
  {
    var k :| 0 <= k < |small| && small[k].id == id;
    assert large[k] == small[k];
  }
}
