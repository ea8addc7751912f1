/** The user registry (`Auth` in js/auth.js): the `users` list, the
    `currentUser` entry that outlives a page load, and the in-memory
    `currentUser` of the running page. Passwords are plain strings
    compared by equality. */
module Accounts {
  import opened Wrappers
  import opened Records

  /** A registered user as stored in the `users` list. */
  datatype User = User(
    id: string,
    email: string,
    password: string,
    name: string,
    createdAt: string,
    financialData: Option<Doc>)

  /** The session record: the user without the `password` field. */
  datatype SessionUser = SessionUser(
    id: string,
    email: string,
    name: string,
    createdAt: string,
    financialData: Option<Doc>)

  /** `const { password: _, ...rest } = user`. */
  function WithoutPassword(u: User): (s: SessionUser)
    ensures s.id == u.id && s.email == u.email && s.name == u.name
    ensures s.createdAt == u.createdAt && s.financialData == u.financialData
  {
    SessionUser(u.id, u.email, u.name, u.createdAt, u.financialData)
  }

  /** `users.findIndex(u => u.id === id)`. */
  function IndexOfId(users: seq<User>, id: string): (i: int)
    ensures -1 <= i < |users|
    ensures i == -1 <==> forall j :: 0 <= j < |users| ==> users[j].id != id
    ensures 0 <= i ==> users[i].id == id && forall j :: 0 <= j < i ==> users[j].id != id
  {
    if users == [] then -1
    else if users[0].id == id then 0
    else
      var k := IndexOfId(users[1..], id);
      if k == -1 then -1 else k + 1
  }

  /** `users.find(user => user.email === email)` finds someone. */
  predicate EmailTaken(users: seq<User>, email: string) {
    exists j :: 0 <= j < |users| && users[j].email == email
  }

  /** `users.find(u => u.email === email && u.password === password)`, as an index. */
  function LoginIndex(users: seq<User>, email: string, password: string): (i: int)
    ensures -1 <= i < |users|
    ensures i == -1 <==>
              forall j :: 0 <= j < |users| ==> !(users[j].email == email && users[j].password == password)
    ensures 0 <= i ==> users[i].email == email && users[i].password == password
    ensures 0 <= i ==> forall j :: 0 <= j < i ==> !(users[j].email == email && users[j].password == password)
  {
    if users == [] then -1
    else if users[0].email == email && users[0].password == password then 0
    else
      var k := LoginIndex(users[1..], email, password);
      if k == -1 then -1 else k + 1
  }

  /** No two registered users share an email: what the duplicate check
      in `register` keeps. */
  predicate UniqueEmails(users: seq<User>) {
    forall i, j :: 0 <= i < j < |users| ==> users[i].email != users[j].email
  }

  /** Registering an unused email keeps emails unique. */
  lemma RegisterKeepsUnique(users: seq<User>, u: User)
    requires UniqueEmails(users) && !EmailTaken(users, u.email)
    ensures UniqueEmails(users + [u])
  {
    forall i, j | 0 <= i < j < |users + [u]|
      ensures (users + [u])[i].email != (users + [u])[j].email
    {
      if j == |users| {
        assert (users + [u])[i] == users[i];
      }
    }
  }

  /** The user just registered can log in with the credentials given, and
      the login finds that very record. */
  lemma {:induction false} RegisterThenLogin(users: seq<User>, u: User)
    requires !EmailTaken(users, u.email)
    ensures LoginIndex(users + [u], u.email, u.password) == |users|
    decreases |users|
  {
    if users != [] {
      assert (users + [u])[1..] == users[1..] + [u];
      assert !EmailTaken(users[1..], u.email) by {
        forall j | 0 <= j < |users[1..]| ensures users[1..][j].email != u.email {
          assert users[1..][j] == users[j + 1];
        }
      }
      RegisterThenLogin(users[1..], u);
    }
  }

  /** With unique emails, a login succeeds only as the one user holding
      that email, so a changed password locks the old one out. */
  lemma LoginUnique(users: seq<User>, email: string, password: string, j: int)
    requires UniqueEmails(users)
    requires 0 <= j < |users| && users[j].email == email
    ensures LoginIndex(users, email, password) == (if users[j].password == password then j else -1)
  {
  }

  class Auth {
    /** The `users` entry. */
    var users: seq<User>
    /** The `currentUser` entry (a session record or nothing). */
    var marker: Option<SessionUser>
    /** `this.currentUser` of the running page. */
    var currentUser: Option<SessionUser>

    /** A fresh `Auth` over what storage holds; `init` runs `checkAuthState`. */
    constructor (users: seq<User>, marker: Option<SessionUser>)
      ensures this.users == users
      ensures marker.Some? && IndexOfId(users, marker.value.id) >= 0 ==>
                this.marker == marker && currentUser == marker
      ensures !(marker.Some? && IndexOfId(users, marker.value.id) >= 0) ==>
                this.marker == None && currentUser == None
    {
      this.users := users;
      this.marker := marker;
      this.currentUser := None;
      new;
      var _ := CheckAuthState();
    }

    /** A stored session whose user still exists is adopted; one whose user
        has gone is logged out. */
    method CheckAuthState() returns (ok: bool)
      modifies this
      ensures ok <==> old(marker).Some? && IndexOfId(users, old(marker).value.id) >= 0
      ensures users == old(users)
      ensures ok ==> currentUser == old(marker) && marker == old(marker)
      ensures !ok && old(marker).Some? ==> currentUser == None && marker == None
      ensures old(marker).None? ==> currentUser == old(currentUser) && marker == None
    {
      if marker.Some? {
        var user := marker.value;
        if IndexOfId(users, user.id) != -1 {
          currentUser := Some(user);
          return true;
        } else {
          Logout();
        }
      }
      return false;
    }

    method Register(email: string, password: string, name: Option<string>, freshId: string, now: string)
      returns (success: bool, newUser: Option<User>)
      modifies this
      ensures success <==> !EmailTaken(old(users), email)
      ensures success ==> newUser == Some(User(freshId, email, password, name.GetOr(""), now, None))
      ensures !success ==> newUser == None
      ensures users == if success then old(users) + [newUser.value] else old(users)
      ensures marker == old(marker) && currentUser == old(currentUser)
    {
      var list := users;
      if EmailTaken(list, email) {
        return false, None;
      }
      var u := User(freshId, email, password, name.GetOr(""), now, None);
      // Writes an empty document into the logged-in user's record, if any;
      // the push below saves `list`, read before that write, over it.
      var _ := SaveUserFinancialData(EmptyDoc);
      users := list + [u];
      success, newUser := true, Some(u);
    }

    method Login(email: string, password: string) returns (success: bool)
      modifies this
      ensures success <==> LoginIndex(users, email, password) >= 0
      ensures success ==> currentUser == Some(WithoutPassword(users[LoginIndex(users, email, password)]))
      ensures success ==> marker == currentUser
      ensures !success ==> marker == old(marker) && currentUser == old(currentUser)
      ensures users == old(users)
    {
      var i := LoginIndex(users, email, password);
      if i != -1 {
        var session := WithoutPassword(users[i]);
        currentUser := Some(session);
        marker := Some(session);
        success := true;
      } else {
        success := false;
      }
    }

    method Logout()
      modifies this
      ensures currentUser == None && marker == None && users == old(users)
    {
      currentUser := None;
      marker := None;
    }

    method IsLoggedIn() returns (r: bool)
      ensures r <==> currentUser.Some?
    {
      r := currentUser != None;
    }

    /** Stores `d` as the current user's `financialData`. */
    method SaveUserFinancialData(d: Doc) returns (ok: bool)
      modifies this
      ensures ok <==> currentUser.Some? && IndexOfId(old(users), currentUser.value.id) >= 0
      ensures users == if ok
                       then old(users)[IndexOfId(old(users), currentUser.value.id)
                                       := old(users)[IndexOfId(old(users), currentUser.value.id)].(financialData := Some(d))]
                       else old(users)
      ensures marker == old(marker) && currentUser == old(currentUser)
    {
      if currentUser.None? {
        return false;
      }
      var i := IndexOfId(users, currentUser.value.id);
      if i != -1 {
        users := users[i := users[i].(financialData := Some(d))];
        return true;
      }
      return false;
    }

    method ChangePassword(currentPassword: string, newPassword: string) returns (ok: bool)
      modifies this
      ensures ok <==> currentUser.Some? && IndexOfId(old(users), currentUser.value.id) >= 0
                      && old(users)[IndexOfId(old(users), currentUser.value.id)].password == currentPassword
      ensures users == if ok
                       then old(users)[IndexOfId(old(users), currentUser.value.id)
                                       := old(users)[IndexOfId(old(users), currentUser.value.id)].(password := newPassword)]
                       else old(users)
      ensures marker == old(marker) && currentUser == old(currentUser)
    {
      if currentUser.None? {
        return false;
      }
      var i := IndexOfId(users, currentUser.value.id);
      if i != -1 && users[i].password == currentPassword {
        users := users[i := users[i].(password := newPassword)];
        return true;
      }
      return false;
    }
  }

  /** A password change keeps every id and every email, so it keeps
      emails unique, and only the changed user's password differs. */
  lemma ChangePasswordKeepsAccounts(users: seq<User>, i: int, newPassword: string)
    requires 0 <= i < |users| && UniqueEmails(users)
    ensures UniqueEmails(users[i := users[i].(password := newPassword)])
    ensures forall j :: 0 <= j < |users| ==>
              users[i := users[i].(password := newPassword)][j].id == users[j].id
    ensures forall j :: 0 <= j < |users| && j != i ==>
              users[i := users[i].(password := newPassword)][j] == users[j]
  {
  }
}
