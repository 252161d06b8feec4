/** The member branch of sign-in (src/pages/Login.tsx). */
module Login {
  import opened Types
  import opened Sequences

  datatype LoginOutcome = LoggedIn(user: User) | UnknownEmail | WrongPassword | NotApproved(status: Status)

  /** Looks up the first user with the email, checks the stored password
      (a user without one never matches), and only then the status. */
  function MemberLogin(users: seq<User>, email: string, password: string): (r: LoginOutcome)
    ensures r == UnknownEmail <==> forall i :: 0 <= i < |users| ==> users[i].email != email
    ensures r.WrongPassword? <==>
      exists i :: IsFirstKey(users, UserEmail, email, i) && users[i].password != Some(password)
    ensures r.NotApproved? <==>
      exists i :: IsFirstKey(users, UserEmail, email, i) && users[i].password == Some(password)
                  && users[i].status != Approved
    ensures r.NotApproved? ==> r.status != Approved
    ensures r.LoggedIn? <==>
      exists i :: IsFirstKey(users, UserEmail, email, i) && users[i].password == Some(password)
                  && users[i].status == Approved && r.user == users[i]
  {
    match FindByKey(users, UserEmail, email)
    case None => UnknownEmail
    case Some(u) =>
      if u.password != Some(password) then WrongPassword
      else if u.status != Approved then NotApproved(u.status)
      else LoggedIn(u)
  }

  /** Whatever signs in is a stored, approved user with that email and password. */
  lemma LoggedInIsApprovedMember(users: seq<User>, email: string, password: string)
    ensures MemberLogin(users, email, password).LoggedIn? ==>
      var u := MemberLogin(users, email, password).user;
      u in users && u.email == email && u.password == Some(password) && u.status == Approved
  {
  }
}
