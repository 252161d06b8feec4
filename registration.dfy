/** Member registration (src/pages/Register.tsx): the form checks, the new
    member record, and the append to the user list. */
module Registration {
  import opened Types
  import opened Sequences

  datatype RegisterForm = RegisterForm(
    name: string, email: string, phone: string, address: string,
    bloodGroup: string, password: string, confirmPassword: string)

  datatype RegisterError = PasswordMismatch | EmailTaken

  datatype RegisterResult = Registered(users: seq<User>) | Refused(error: RegisterError)

  /** A new member may view the fund and nothing else. */
  const NewMemberPermissions := Permissions(true, false, false, false)

  /** No two users share an email. */
  predicate UniqueEmails(users: seq<User>) { UniqueKeys(users, UserEmail) }

  predicate EmailInUse(users: seq<User>, email: string)
  {
    exists i :: 0 <= i < |users| && users[i].email == email
  }

  /** The record `handleSubmit` stores: a pending member awaiting approval,
      with dues of 500 a month. */
  function NewUser(f: RegisterForm, stamp: string, today: string, now: YearMonth): (u: User)
    ensures u.role == Member && !u.approved && u.status == Pending
    ensures u.monthlyAmount == Some(500)
    ensures u.permissions == Some(NewMemberPermissions)
    ensures u.email == f.email && u.name == f.name && u.password == Some(f.password)
    ensures u.createdAt == Some(now) && u.manualDue.None? && u.manualTotalPaid.None?
  {
    User("user-" + stamp, f.name, f.email, Some(f.phone), Some(f.password), Member, None,
         false, Pending, Some(500), None, None, None, today, Some(now), None,
         Some(f.address), Some(f.bloodGroup), Some(NewMemberPermissions), None)
  }

  /** `handleSubmit`: the password check comes first, then the duplicate
      email check; only a form passing both appends a user. */
  function Register(users: seq<User>, f: RegisterForm, stamp: string, today: string, now: YearMonth): (r: RegisterResult)
    ensures f.password != f.confirmPassword ==> r == Refused(PasswordMismatch)
    ensures f.password == f.confirmPassword && EmailInUse(users, f.email) ==> r == Refused(EmailTaken)
    ensures r.Registered? <==> f.password == f.confirmPassword && !EmailInUse(users, f.email)
    ensures r.Registered? ==> r.users == users + [NewUser(f, stamp, today, now)]
  {
    if f.password != f.confirmPassword then Refused(PasswordMismatch)
    else if FindByKey(users, UserEmail, f.email).Some? then Refused(EmailTaken)
    else Registered(users + [NewUser(f, stamp, today, now)])
  }

  /** Successful registrations keep emails unique. */
  lemma RegisterKeepsEmailsUnique(users: seq<User>, f: RegisterForm, stamp: string, today: string, now: YearMonth)
    requires UniqueEmails(users)
    ensures Register(users, f, stamp, today, now).Registered? ==> UniqueEmails(Register(users, f, stamp, today, now).users)
  {
    var r := Register(users, f, stamp, today, now);
    if r.Registered? {
      var s := r.users;
      forall i, j | 0 <= i < j < |s| ensures UserEmail(s[i]) != UserEmail(s[j]) {
        if j == |users| {
          assert s[j].email == f.email && s[i] == users[i];
        } else {
          assert s[i] == users[i] && s[j] == users[j];
        }
      }
    }
  }
}
