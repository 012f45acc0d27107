/**
 * The two stored document kinds the routers work on (users and crafts), the
 * form that creates or edits a craft, and the two MongoDB array update
 * operators the handlers use: `$push` is sequence append (`s + [x]`, written
 * inline where it is used) and `$pull` is `Pull` below.
 */
module Documents {

  /** Document ids. MongoDB ObjectIds are opaque; only equality matters here. */
  type ObjectId = nat
  type UserId = ObjectId
  type CraftId = ObjectId

  datatype Option<T> = None | Some(value: T)

  /** A user document. `password` holds the bcrypt hash, never the plaintext. */
  datatype User = User(
    username: string,
    email: string,
    password: string,
    posts: seq<CraftId>,
    favorites: seq<CraftId>)

  /** A craft (post) document. */
  datatype Craft = Craft(
    title: string,
    imageURL: string,
    category: string,
    description: string,
    materials: string,
    instructions: string,
    createdBy: UserId,
    favoritedBy: seq<UserId>)

  /** The text fields of the add-post and edit-post forms. */
  datatype CraftForm = CraftForm(
    title: string,
    category: string,
    description: string,
    materials: string,
    instructions: string)

  /** No element occurs twice. */
  ghost predicate NoDuplicates<T>(s: seq<T>)
  {
    forall i, j :: 0 <= i < j < |s| ==> s[i] != s[j]
  }

  /**
   * `$pull: { field: x }`: removes every occurrence of `x` and keeps the
   * other elements in their order.
   */
  function Pull(s: seq<ObjectId>, x: ObjectId): (r: seq<ObjectId>)
    ensures multiset(r) == multiset(s)[x := 0]
    ensures forall y :: y in r <==> y in s && y != x
    ensures x !in s ==> r == s
    decreases |s|
  {
    if s == [] then []
    else
      assert s == [s[0]] + s[1..];
      if s[0] == x then Pull(s[1..], x)
      else [s[0]] + Pull(s[1..], x)
  }

  /** Pulling `x` after pushing `x` is the same as pulling it straight away. */
  lemma {:induction false} PullAfterPush(s: seq<ObjectId>, x: ObjectId)
    ensures Pull(s + [x], x) == Pull(s, x)
    decreases |s|
  {
    if s == [] {
      assert [] + [x] == [x];
    } else {
      assert (s + [x])[0] == s[0];
      assert (s + [x])[1..] == s[1..] + [x];
      PullAfterPush(s[1..], x);
    }
  }

  /**
   * Pulling keeps order: it works piece by piece over a concatenation, and a
   * single element other than `x` stays as it is.
   */
  lemma {:induction false} PullConcat(a: seq<ObjectId>, b: seq<ObjectId>, x: ObjectId)
    ensures Pull(a + b, x) == Pull(a, x) + Pull(b, x)
    ensures forall y :: y != x ==> Pull([y], x) == [y]
    decreases |a|
  {
    if a == [] {
      assert [] + b == b;
    } else {
      var ab := a + b;
      assert ab != [] && ab[0] == a[0] && ab[1..] == a[1..] + b;
      PullConcat(a[1..], b, x);
      if a[0] == x {
        assert Pull(ab, x) == Pull(a[1..] + b, x);
        assert Pull(a, x) == Pull(a[1..], x);
      } else {
        assert Pull(ab, x) == [a[0]] + (Pull(a[1..], x) + Pull(b, x));
        assert Pull(a, x) == [a[0]] + Pull(a[1..], x);
      }
    }
  }

  /** Pulling is idempotent. */
  lemma PullTwice(s: seq<ObjectId>, x: ObjectId)
    ensures Pull(Pull(s, x), x) == Pull(s, x)
  {
  }

  /** Pulling keeps a duplicate-free sequence duplicate-free. */
  lemma {:induction false} PullNoDuplicates(s: seq<ObjectId>, x: ObjectId)
    requires NoDuplicates(s)
    ensures NoDuplicates(Pull(s, x))
    decreases |s|
  {
    if s != [] {
      assert NoDuplicates(s[1..]) by {
        forall i, j | 0 <= i < j < |s[1..]| ensures s[1..][i] != s[1..][j] {
          assert s[1..][i] == s[i + 1] && s[1..][j] == s[j + 1];
        }
      }
      PullNoDuplicates(s[1..], x);
      if s[0] != x {
        var t := Pull(s[1..], x);
        assert s[0] !in s[1..] by {
          forall k | 0 <= k < |s[1..]| ensures s[1..][k] != s[0] {
            assert s[1..][k] == s[k + 1];
          }
        }
        assert s[0] !in t;
        forall i, j | 0 <= i < j < |[s[0]] + t| ensures ([s[0]] + t)[i] != ([s[0]] + t)[j] {
          if i == 0 {
            assert ([s[0]] + t)[j] == t[j - 1];
          } else {
            assert ([s[0]] + t)[i] == t[i - 1] && ([s[0]] + t)[j] == t[j - 1];
          }
        }
      }
    }
  }
}
