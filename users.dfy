/**
 * The user directory's records: users keyed by username, each with a session token while
 * logged in and the list of purchases made so far.
 */
module Users {
  import opened Results
  import opened Catalog

  /** The largest value the random-number helper can return. */
  const MaxRandom := 100000

  /** Values of the random-number helper: a random fraction scaled by 100000 and rounded. */
  type RandomId = n: int | 0 <= n <= MaxRandom

  /** One checkout: a random id and the ordered item ids, in order. */
  datatype Purchase = Purchase(id: RandomId, items: seq<ItemId>)

  /** A user record. `token` is `None` once the user has logged out. */
  datatype User = User(
    id: RandomId,
    username: string,
    password: string,
    isLoggedIn: bool,
    token: Option<string>,
    purchases: seq<Purchase>)

  /** Some user currently holds session token `t`. */
  predicate HoldsToken(users: map<string, User>, t: string)
  {
    exists u :: u in users && users[u].token == Some(t)
  }

  /** No two users hold the same session token. */
  ghost predicate TokensUnique(users: map<string, User>)
  {
    forall u, v :: u in users && v in users && users[u].token.Some? && users[u].token == users[v].token ==> u == v
  }

  /** A user is logged in exactly when it holds a token. */
  predicate SessionConsistent(user: User)
  {
    user.isLoggedIn <==> user.token.Some?
  }

  /** Storing a record whose token nobody holds keeps tokens unique (register, login). */
  lemma FreshTokenKeepsUnique(users: map<string, User>, name: string, user: User)
    requires TokensUnique(users)
    requires user.token.Some? && !HoldsToken(users, user.token.value)
    ensures TokensUnique(users[name := user])
    ensures HoldsToken(users[name := user], user.token.value)
  {
    var updated := users[name := user];
    assert updated[name].token == user.token;
    forall u, v | u in updated && v in updated && updated[u].token.Some? && updated[u].token == updated[v].token
      ensures u == v
    {
      if u != name && v != name {
        assert users[u].token == users[v].token;
      }
    }
  }

  /** Clearing a user's token keeps tokens unique, and then nobody holds the cleared token. */
  lemma SignOutRevokesToken(users: map<string, User>, name: string)
    requires TokensUnique(users)
    requires name in users && users[name].token.Some?
    ensures TokensUnique(users[name := users[name].(isLoggedIn := false, token := None)])
    ensures !HoldsToken(users[name := users[name].(isLoggedIn := false, token := None)], users[name].token.value)
  {
  }

  /** Replacing a record by one with the same token keeps tokens unique (purchase). */
  lemma SameTokenKeepsUnique(users: map<string, User>, name: string, user: User)
    requires TokensUnique(users)
    requires name in users && user.token == users[name].token
    ensures TokensUnique(users[name := user])
    ensures forall t :: HoldsToken(users[name := user], t) <==> HoldsToken(users, t)
  {
    var updated := users[name := user];
    forall t
      ensures HoldsToken(updated, t) <==> HoldsToken(users, t)
    {
      if HoldsToken(users, t) {
        var u :| u in users && users[u].token == Some(t);
        assert updated[u].token == Some(t);
      }
      if HoldsToken(updated, t) {
        var u :| u in updated && updated[u].token == Some(t);
        assert users[u].token == Some(t);
      }
    }
  }
}
