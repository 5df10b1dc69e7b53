/** The in-memory account registry: users, credential lookup and the e-mail
    uniqueness rule applied on sign-up. */
module Auth {
  import opened Options

  datatype User = User(username: string, email: string, password: string)

  /** The account the registry is seeded with. */
  const DemoUser: User := User("demo_user", "user@example.com", "password123")

  /** `users.find(u => u.email === email && u.password === password)`. */
  function FindUser(users: seq<User>, email: string, password: string): (r: Option<User>)
    ensures r.Some? ==> r.value in users && r.value.email == email && r.value.password == password
    ensures r.None? <==> forall u :: u in users ==> !(u.email == email && u.password == password)
  {
    if users == [] then None
    else if users[0].email == email && users[0].password == password then Some(users[0])
    else
      var r := FindUser(users[1..], email, password);
      assert users == [users[0]] + users[1..];
      r
  }

  /** Some account already uses `email` (exact, case-sensitive comparison). */
  predicate EmailTaken(users: seq<User>, email: string)
  {
    exists u :: u in users && u.email == email
  }

  /** No two accounts share an e-mail address. */
  predicate UniqueEmails(users: seq<User>)
  {
    forall i, j :: 0 <= i < j < |users| ==> users[i].email != users[j].email
  }

  /** Appending an account whose e-mail is not taken keeps e-mails unique. */
  lemma SignupKeepsEmailsUnique(users: seq<User>, user: User)
    requires UniqueEmails(users) && !EmailTaken(users, user.email)
    ensures UniqueEmails(users + [user])
  {
    var r := users + [user];
    forall i, j | 0 <= i < j < |r|
      ensures r[i].email != r[j].email
    {
      if j == |users| {
        assert r[i] == users[i] && users[i] in users;
      } else {
        assert r[i] == users[i] && r[j] == users[j];
      }
    }
  }

  /** With unique e-mails, the account's own credentials log in as that account
      and as no other. */
  lemma {:induction false} LoginFindsOwnAccount(users: seq<User>, u: User)
    requires UniqueEmails(users) && u in users
    ensures FindUser(users, u.email, u.password) == Some(u)
    decreases |users|
  {
    if users[0] != u {
      assert u in users[1..];
      var k :| 0 <= k < |users[1..]| && users[1..][k] == u;
      assert users[k + 1] == u;
      assert users[0].email != u.email;
      assert UniqueEmails(users[1..]) by {
        forall i, j | 0 <= i < j < |users[1..]|
          ensures users[1..][i].email != users[1..][j].email
        {
          assert users[1..][i] == users[i + 1] && users[1..][j] == users[j + 1];
        }
      }
      LoginFindsOwnAccount(users[1..], u);
    }
  }
}
