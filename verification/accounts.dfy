/** The `login` handler's decision (backend/server.js:72-84), over the
    credential table's contents. A stored empty password reads as absent,
    as `!storedPassword` does. */
module Accounts {

  datatype LoginResult = LoginResult(users: map<string, string>, success: bool)

  /** The stored password, with a missing entry read as the empty string. */
  function Stored(users: map<string, string>, username: string): string {
    if username in users then users[username] else ""
  }

  function Login(users: map<string, string>, username: string, password: string): (r: LoginResult)
    ensures r.success <==> Stored(users, username) == "" || Stored(users, username) == password
    ensures r.success ==> username in r.users && r.users[username] == password
    ensures Stored(users, username) != "" ==> r.users == users
    ensures forall u :: u != username ==> (u in r.users <==> u in users)
    ensures forall u :: u != username && u in users ==> r.users[u] == users[u]
  {
    var stored := Stored(users, username);
    if stored == "" then LoginResult(users[username := password], true)
    else if stored == password then LoginResult(users, true)
    else LoginResult(users, false)
  }

  /** First write wins: after a first login with a non-empty password, a
      login with any other password fails and changes nothing. */
  lemma FirstWriteWins(users: map<string, string>, username: string, first: string, other: string)
    requires username !in users && first != "" && other != first
    ensures Login(users, username, first).success
    ensures var after := Login(users, username, first).users;
            !Login(after, username, other).success && Login(after, username, other).users == after
  {
  }

  /** A password-less first login claims nothing: the next login, with any
      password, succeeds and stores that password. */
  lemma EmptyPasswordNotRetained(users: map<string, string>, username: string, later: string)
    requires username !in users
    ensures var after := Login(users, username, "").users;
            Login(after, username, later).success && Login(after, username, later).users[username] == later
  {
  }
}
