/**
 * The authentication provider: a fixed list of mock accounts, a
 * case-insensitive username / exact password lookup, and the
 * `isAuthenticated` and `user` state with their two stored keys.
 */
module Auth {
  import opened Options
  import opened Strings

  datatype MockUser = MockUser(username: string, password: string, name: string)

  /** The signed-in user; `email` is optional in the record type. */
  datatype User = User(username: string, name: string, email: Option<string>)

  /** The two built-in accounts, in lookup order. */
  const MockUsers: seq<MockUser> := [
    MockUser("kacper", "reliance123", "Kacper"),
    MockUser("demo", "demo123", "Demo User")
  ]

  predicate Matches(u: MockUser, username: string, password: string) {
    ToLower(u.username) == ToLower(username) && u.password == password
  }

  /** `mockUsers.find(...)`: the first account whose name matches ignoring case and whose password matches exactly. */
  function FindUser(users: seq<MockUser>, username: string, password: string): (r: Option<MockUser>)
    ensures r.None? <==> forall k :: 0 <= k < |users| ==> !Matches(users[k], username, password)
    ensures r.Some? ==> exists k :: 0 <= k < |users| && users[k] == r.value
                                    && Matches(users[k], username, password)
                                    && forall j :: 0 <= j < k ==> !Matches(users[j], username, password)
  {
    if users == [] then None
    else if Matches(users[0], username, password) then Some(users[0])
    else
      var r := FindUser(users[1..], username, password);
      FindUserShift(users, username, password, r);
      r
  }

  lemma FindUserShift(users: seq<MockUser>, username: string, password: string, r: Option<MockUser>)
    requires users != [] && !Matches(users[0], username, password)
    requires r.None? <==> forall k :: 0 <= k < |users| - 1 ==> !Matches(users[1..][k], username, password)
    requires r.Some? ==> exists k :: 0 <= k < |users| - 1 && users[1..][k] == r.value
                                    && Matches(users[1..][k], username, password)
                                    && forall j :: 0 <= j < k ==> !Matches(users[1..][j], username, password)
    ensures r.None? <==> forall k :: 0 <= k < |users| ==> !Matches(users[k], username, password)
    ensures r.Some? ==> exists k :: 0 <= k < |users| && users[k] == r.value
                                    && Matches(users[k], username, password)
                                    && forall j :: 0 <= j < k ==> !Matches(users[j], username, password)
  {
    if r.None? {
      forall k | 0 <= k < |users|
        ensures !Matches(users[k], username, password)
      {
        if k > 0 {
          assert users[k] == users[1..][k - 1];
        }
      }
    } else {
      var k :| 0 <= k < |users| - 1 && users[1..][k] == r.value
               && Matches(users[1..][k], username, password)
               && forall j :: 0 <= j < k ==> !Matches(users[1..][j], username, password);
      assert users[k + 1] == r.value;
      forall j | 0 <= j < k + 1
        ensures !Matches(users[j], username, password)
      {
        if j > 0 {
          assert users[j] == users[1..][j - 1];
        }
      }
    }
  }

  /** The record stored on success: canonical username, name and `username + "@example.com"`. */
  function SignedIn(u: MockUser): (r: User)
    ensures r.username == u.username && r.name == u.name
    ensures r.email == Some(u.username + "@example.com")
  {
    User(u.username, u.name, Some(u.username + "@example.com"))
  }

  /** The sample credentials: a lower-case login, an upper-case one, and a wrong-case password. */
  lemma KnownCredentials()
    ensures FindUser(MockUsers, "demo", "demo123") == Some(MockUsers[1])
    ensures FindUser(MockUsers, "KACPER", "reliance123") == Some(MockUsers[0])
    ensures FindUser(MockUsers, "demo", "Demo123").None?
  {
    assert ToLower("KACPER") == "kacper";
    assert ToLower("kacper") == "kacper";
    assert ToLower("demo") == "demo";
    assert !Matches(MockUsers[0], "demo", "demo123");
  }

  /** Only the account's own password opens it, and any capitalisation of its name does. */
  lemma LoginIgnoresNameCase(username: string, password: string, other: string)
    requires ToLower(other) == ToLower(username)
    ensures FindUser(MockUsers, username, password) == FindUser(MockUsers, other, password)
  {
  }

  /** The provider's state and the browser's two storage entries. */
  class AuthStore {
    var isAuthenticated: bool
    var user: Option<User>
    var storedAuth: Option<string>
    var storedUser: Option<User>

    /** Restore: authenticated only when the stored flag is exactly `"true"`; the user is whatever was stored. */
    constructor Restore(savedAuth: Option<string>, savedUser: Option<User>)
      ensures isAuthenticated <==> savedAuth == Some("true")
      ensures user == savedUser
      ensures storedAuth == savedAuth && storedUser == savedUser
    {
      isAuthenticated := savedAuth == Some("true");
      user := savedUser;
      storedAuth := savedAuth;
      storedUser := savedUser;
    }

    /** `login`: on a match, sign in and persist both keys; otherwise change nothing. */
    method Login(username: string, password: string) returns (ok: bool)
      modifies this
      ensures ok <==> FindUser(MockUsers, username, password).Some?
      ensures ok ==> var u := SignedIn(FindUser(MockUsers, username, password).value);
                     isAuthenticated && user == Some(u)
                     && storedAuth == Some("true") && storedUser == Some(u)
      ensures !ok ==> isAuthenticated == old(isAuthenticated) && user == old(user)
                      && storedAuth == old(storedAuth) && storedUser == old(storedUser)
    {
      var found := FindUser(MockUsers, username, password);
      if found.Some? {
        var data := SignedIn(found.value);
        user := Some(data);
        isAuthenticated := true;
        storedAuth := Some("true");
        storedUser := Some(data);
        ok := true;
      } else {
        ok := false;
      }
    }

    /** `logout`: clear the state and remove both stored keys. */
    method Logout()
      modifies this
      ensures !isAuthenticated && user.None?
      ensures storedAuth.None? && storedUser.None?
    {
      user := None;
      isAuthenticated := false;
      storedAuth := None;
      storedUser := None;
    }
  }
}
