// The account store (AuthManager in src/auth.py).  The JSON document is the
// sequence field `users`; usernames are compared by exact equality.

module Auth {

  datatype Credential = Credential(username: string, password: string)

  /** Some stored record has this username (the duplicate check of create_user). */
  predicate Taken(users: seq<Credential>, username: string)
    ensures Taken(users, username) <==> exists i :: 0 <= i < |users| && users[i].username == username
  {
    if users == [] then false
    else
      assert forall i :: 1 <= i < |users| ==> users[1..][i - 1] == users[i];
      users[0].username == username || Taken(users[1..], username)
  }

  /** Some stored record has both this username and this password (authenticate). */
  predicate Authenticates(users: seq<Credential>, username: string, password: string)
    ensures Authenticates(users, username, password) <==>
      exists i :: 0 <= i < |users| && users[i] == Credential(username, password)
  {
    if users == [] then false
    else
      assert forall i :: 1 <= i < |users| ==> users[1..][i - 1] == users[i];
      (users[0].username == username && users[0].password == password) ||
      Authenticates(users[1..], username, password)
  }

  /** No username is stored twice. */
  ghost predicate UniqueUsernames(users: seq<Credential>)
  {
    users == [] || (!Taken(users[1..], users[0].username) && UniqueUsernames(users[1..]))
  }

  class AuthManager {
    /** The contents of users.json, in stored (append) order. */
    var users: seq<Credential>

    /** A store whose file does not exist yet loads as empty. */
    constructor ()
      ensures users == []
    {
      users := [];
    }

    /** create_user: refuse a taken username, otherwise append the record. */
    method CreateUser(username: string, password: string) returns (created: bool)
      modifies this
      ensures created <==> !Taken(old(users), username)
      ensures users == if created then old(users) + [Credential(username, password)] else old(users)
      ensures UniqueUsernames(old(users)) ==> UniqueUsernames(users)
    {
      if Taken(users, username) {
        return false;
      }
      if UniqueUsernames(users) {
        AppendPreservesUnique(users, Credential(username, password));
      }
      users := users + [Credential(username, password)];
      return true;
    }

    function Authenticate(username: string, password: string): bool
      reads this
    {
      Authenticates(users, username, password)
    }
  }

  /** UniqueUsernames is "no two positions hold the same username". */
  lemma {:induction false} UniqueAt(users: seq<Credential>)
    ensures UniqueUsernames(users) <==>
      forall i, j :: 0 <= i < j < |users| ==> users[i].username != users[j].username
  {
    if users != [] {
      UniqueAt(users[1..]);
      if !UniqueUsernames(users) {
        if Taken(users[1..], users[0].username) {
          var j :| 0 <= j < |users[1..]| && users[1..][j].username == users[0].username;
          assert users[0].username == users[j + 1].username;
        } else {
          var i, j :| 0 <= i < j < |users[1..]| && users[1..][i].username == users[1..][j].username;
          assert users[i + 1].username == users[j + 1].username;
        }
      }
    }
  }

  /** A successful authentication implies the username is taken. */
  lemma {:induction false} AuthenticatesImpliesTaken(users: seq<Credential>, username: string, password: string)
    requires Authenticates(users, username, password)
    ensures Taken(users, username)
  {
    if !(users[0].username == username && users[0].password == password) {
      AuthenticatesImpliesTaken(users[1..], username, password);
    }
  }

  /** An unknown username never authenticates. */
  lemma UnknownUserRejected(users: seq<Credential>, username: string, password: string)
    requires !Taken(users, username)
    ensures !Authenticates(users, username, password)
  {
    if Authenticates(users, username, password) {
      AuthenticatesImpliesTaken(users, username, password);
    }
  }

  /** With unique usernames, a user authenticates with at most one password. */
  lemma {:induction false} OnePasswordPerUser(users: seq<Credential>, username: string, p: string, q: string)
    requires UniqueUsernames(users)
    requires Authenticates(users, username, p) && Authenticates(users, username, q)
    ensures p == q
  {
    if users[0].username == username {
      if users[0].password != p {
        AuthenticatesImpliesTaken(users[1..], username, p);
      } else if users[0].password != q {
        AuthenticatesImpliesTaken(users[1..], username, q);
      }
    } else {
      OnePasswordPerUser(users[1..], username, p, q);
    }
  }

  /** Searching a store with a record appended searches the old store and then that record. */
  lemma {:induction false} TakenAppend(users: seq<Credential>, c: Credential, username: string)
    ensures Taken(users + [c], username) <==> Taken(users, username) || c.username == username
  {
    if users == [] {
      assert [c][1..] == [];
    } else {
      assert (users + [c])[1..] == users[1..] + [c];
      TakenAppend(users[1..], c, username);
    }
  }

  lemma {:induction false} AuthenticatesAppend(users: seq<Credential>, c: Credential, username: string, password: string)
    ensures Authenticates(users + [c], username, password) <==>
      Authenticates(users, username, password) || c == Credential(username, password)
  {
    if users == [] {
      assert [c][1..] == [];
    } else {
      assert (users + [c])[1..] == users[1..] + [c];
      AuthenticatesAppend(users[1..], c, username, password);
    }
  }

  /** Appending a record with a new username keeps usernames unique. */
  lemma {:induction false} AppendPreservesUnique(users: seq<Credential>, c: Credential)
    requires UniqueUsernames(users) && !Taken(users, c.username)
    ensures UniqueUsernames(users + [c])
  {
    if users == [] {
      assert [c][1..] == [];
    } else {
      assert (users + [c])[1..] == users[1..] + [c];
      TakenAppend(users[1..], c, users[0].username);
      AppendPreservesUnique(users[1..], c);
    }
  }

  /**
   * After create_user(u, p) succeeds, authenticate(u, p) holds, any other
   * password for u fails, and every other account authenticates as before.
   */
  lemma SignUpThenLogIn(users: seq<Credential>, username: string, password: string)
    requires UniqueUsernames(users) && !Taken(users, username)
    ensures var after := users + [Credential(username, password)];
      Authenticates(after, username, password) &&
      (forall other :: other != password ==> !Authenticates(after, username, other)) &&
      (forall u, p :: u != username ==> (Authenticates(after, u, p) <==> Authenticates(users, u, p)))
  {
    var after := users + [Credential(username, password)];
    AuthenticatesAppend(users, Credential(username, password), username, password);
    AppendPreservesUnique(users, Credential(username, password));
    forall other | other != password
      ensures !Authenticates(after, username, other)
    {
      if Authenticates(after, username, other) {
        OnePasswordPerUser(after, username, password, other);
      }
    }
    forall u, p | u != username
      ensures Authenticates(after, u, p) <==> Authenticates(users, u, p)
    {
      AuthenticatesAppend(users, Credential(username, password), u, p);
    }
  }

  /**
   * The account store's tests on a fresh store: sign up alice, log in with
   * the right password, the wrong one and an unknown user, then sign up
   * alice again.
   */
  method SignUpScenario() returns (created: bool, ok: bool, wrong: bool, unknown: bool, again: bool)
    ensures created && ok && !wrong && !unknown && !again
  {
    var store := new AuthManager();
    created := store.CreateUser("alice", "password123");
    SignUpThenLogIn([], "alice", "password123");
    UnknownUserRejected(store.users, "bob", "password123");
    ok := store.Authenticate("alice", "password123");
    wrong := store.Authenticate("alice", "wrong");
    unknown := store.Authenticate("bob", "password123");
    again := store.CreateUser("alice", "password123");
  }
}
