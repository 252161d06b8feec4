/** The browser store the pages share, as one object with a list per key:
    `mock_users`, `mock_donations`, `fund_ledger`, `mock_notices` and
    `mock_activities`. Each handler reads a list, builds the new list and
    writes it back; here each handler is a method that reassigns the field
    for that key, stated against the pure functions of the other modules. */
module Store {
  import opened Types
  import opened Sequences
  import opened Fund
  import Admin
  import Dues
  import Payment
  import Registration
  import Login

  class RecordStore {
    var users: seq<User>
    var donations: seq<Donation>
    /** The saved ledger, and whether `fund_ledger` has been saved at all. */
    var ledger: seq<FundTransaction>
    var ledgerStored: bool
    var notices: seq<Notice>
    var activities: seq<Activity>

    /** A key that was never saved reads as the empty list. */
    predicate Valid()
      reads this`ledger, this`ledgerStored
    {
      !ledgerStored ==> ledger == []
    }

    /** A fresh browser: nothing saved under any key. */
    constructor ()
      ensures Valid() && !ledgerStored
      ensures users == [] && donations == [] && ledger == [] && notices == [] && activities == []
    {
      users, donations, ledger, ledgerStored, notices, activities := [], [], [], false, [], [];
    }

    // ---- Reading (the overview, the member dashboard, sign-in) ----

    /** The admin overview cards computed from the stored lists. */
    method AdminOverview() returns (s: Admin.AdminStats)
      requires Valid()
      ensures s == Admin.DashboardStats(users, donations, ledger)
      ensures s.totalFund == OrgTotals(ledger, donations).totalBalance
      ensures s.pendingUsers + s.totalMembers <= |users|
    {
      s := Admin.DashboardStats(users, donations, ledger);
    }

    /** The member dashboard for the signed-in `user`, read from the stored lists. */
    method MemberDashboard(user: User, now: YearMonth) returns (v: Dues.MemberView)
      requires Valid()
      ensures v == Dues.LoadMemberData(users, user, donations, ledger, activities, now)
      ensures v.currentUser.id == user.id
      ensures v.orgStats.totalFund == Admin.DashboardStats(users, donations, ledger).totalFund
    {
      v := Dues.LoadMemberData(users, user, donations, ledger, activities, now);
    }

    /** Member sign-in against the stored users. */
    method SignIn(email: string, password: string) returns (r: Login.LoginOutcome)
      ensures r == Login.MemberLogin(users, email, password)
      ensures r.LoggedIn? ==> r.user in users && r.user.status == Approved && r.user.password == Some(password)
    {
      r := Login.MemberLogin(users, email, password);
      Login.LoggedInIsApprovedMember(users, email, password);
    }

    /** `loadFundData`: an unsaved ledger is first saved as the founder's
        seed entry (a saved ledger, even an empty one, is kept); the page
        then shows the saved entries together with one income entry per
        approved donation, newest first, and the unified totals. */
    method LoadFundData(dateKey: string -> int) returns (combined: seq<FundTransaction>, totals: Totals)
      requires Valid()
      modifies this`ledger, this`ledgerStored
      ensures Valid() && ledgerStored
      ensures old(ledgerStored) ==> ledger == old(ledger)
      ensures !old(ledgerStored) ==> ledger == [SeedEntry]
      ensures combined == CombinedLedger(ledger, donations, dateKey)
      ensures totals == OrgTotals(ledger, donations)
      ensures multiset(combined) == multiset(ledger + DerivedIncome(donations))
      ensures NewestFirst(combined, dateKey)
    {
      if !ledgerStored {
        ledger := [SeedEntry];
        ledgerStored := true;
      }
      combined := CombinedLedger(ledger, donations, dateKey);
      totals := OrgTotals(ledger, donations);
    }

    // ---- Member actions ----

    /** `handleMemberStatusUpdate`: with a user under review, every stored
        record with that id becomes the reviewed user with the decision. */
    method UpdateMemberStatus(reviewing: Option<User>, decision: Status)
      requires decision != Pending
      modifies this`users
      ensures reviewing.None? ==> users == old(users)
      ensures reviewing.Some? ==>
        users == ReplaceById(old(users), UserId, reviewing.value.id, Admin.Reviewed(reviewing.value, decision))
      ensures |users| == |old(users)|
      ensures reviewing.Some? ==> forall k :: 0 <= k < |users| && old(users)[k].id == reviewing.value.id ==>
        users[k].status == decision && users[k].approved == (decision == Approved)
    {
      if reviewing.Some? {
        users := ReplaceById(users, UserId, reviewing.value.id, Admin.Reviewed(reviewing.value, decision));
      }
    }

    /** `handleUpdateMemberInfo`: the edited record replaces the stored one. */
    method UpdateMemberInfo(reviewing: Option<User>)
      modifies this`users
      ensures reviewing.None? ==> users == old(users)
      ensures reviewing.Some? ==> users == ReplaceById(old(users), UserId, reviewing.value.id, reviewing.value)
      ensures |users| == |old(users)|
    {
      if reviewing.Some? {
        users := ReplaceById(users, UserId, reviewing.value.id, reviewing.value);
      }
    }

    /** `deleteUser`, after the confirmation dialog. */
    method DeleteUser(id: string, confirmed: bool)
      modifies this`users
      ensures !confirmed ==> users == old(users)
      ensures confirmed ==> users == RemoveById(old(users), UserId, id)
      ensures forall k :: 0 <= k < |old(users)| && old(users)[k].id != id ==> old(users)[k] in users
    {
      if confirmed {
        users := RemoveById(users, UserId, id);
      }
    }

    /** `sendMessage`: nothing happens without a user under review or with
        a blank text; otherwise the admin's message is appended to that
        user's messages, the store is updated, and the updated user stays
        under review. */
    method SendMessage(reviewing: Option<User>, text: string, stamp: string, date: string)
        returns (next: Option<User>)
      modifies this`users
      ensures reviewing.None? || Admin.IsBlank(text) ==> users == old(users) && next == reviewing
      ensures reviewing.Some? && !Admin.IsBlank(text) ==>
        && next == Some(Admin.WithMessage(reviewing.value, Admin.AdminMessage(text, stamp, date)))
        && users == ReplaceById(old(users), UserId, reviewing.value.id, next.value)
        && Admin.MessagesOf(next.value) == Admin.MessagesOf(reviewing.value) + [Admin.AdminMessage(text, stamp, date)]
    {
      if reviewing.None? || Admin.IsBlank(text) {
        next := reviewing;
        return;
      }
      var updated := Admin.WithMessage(reviewing.value, Admin.AdminMessage(text, stamp, date));
      users := ReplaceById(users, UserId, reviewing.value.id, updated);
      next := Some(updated);
    }

    // ---- Donation actions ----

    /** `handleDonationVerify`: every donation with the id takes the decision. */
    method VerifyDonation(id: string, s: Status)
      requires s != Pending
      modifies this`donations
      ensures donations == Admin.WithDonationStatus(old(donations), id, s)
      ensures ledger == old(ledger)
      ensures s == Rejected && (forall k :: 0 <= k < |old(donations)| && old(donations)[k].id == id ==> old(donations)[k].status != Approved)
        ==> OrgTotals(ledger, donations) == OrgTotals(ledger, old(donations))
      ensures s == Approved && UniqueKeys(old(donations), DonationId) ==>
        forall i :: 0 <= i < |old(donations)| && old(donations)[i].id == id && old(donations)[i].status != Approved ==>
          OrgTotals(ledger, donations).totalBalance == OrgTotals(ledger, old(donations)).totalBalance + old(donations)[i].amount
    {
      if s == Rejected && forall k :: 0 <= k < |donations| && donations[k].id == id ==> donations[k].status != Approved {
        Admin.NonApprovingVerifyKeepsTotals(ledger, donations, id, s);
      }
      if s == Approved && UniqueKeys(donations, DonationId) {
        forall i | 0 <= i < |donations| && donations[i].id == id && donations[i].status != Approved
          ensures OrgTotals(ledger, Admin.WithDonationStatus(donations, id, s)).totalBalance
                  == OrgTotals(ledger, donations).totalBalance + donations[i].amount
        {
          Admin.ApproveRaisesFund(ledger, donations, i);
        }
      }
      donations := Admin.WithDonationStatus(donations, id, s);
    }

    /** `deleteDonation`, after the confirmation dialog. */
    method DeleteDonation(id: string, confirmed: bool)
      modifies this`donations
      ensures !confirmed ==> donations == old(donations)
      ensures confirmed ==> donations == RemoveById(old(donations), DonationId, id)
    {
      if confirmed {
        donations := RemoveById(donations, DonationId, id);
      }
    }

    /** `handleSubmitDonation`: the new pending donation goes to the front.
        Until it is approved it changes neither the fund totals nor any
        member's figures. */
    method SubmitDonation(user: User, amount: int, m: PayMethod, trxId: string,
                          screenshot: Option<string>, stamp: string, today: string)
      requires Payment.FormMethod(m)
      modifies this`donations
      ensures donations == [Payment.NewDonation(user, amount, m, trxId, screenshot, stamp, today)] + old(donations)
      ensures OrgTotals(ledger, donations) == OrgTotals(ledger, old(donations))
      ensures forall u: User, now: YearMonth :: Dues.Stats(u, donations, now) == Dues.Stats(u, old(donations), now)
    {
      var d := Payment.NewDonation(user, amount, m, trxId, screenshot, stamp, today);
      AddDonationEffect(ledger, donations, d);
      donations := [d] + donations;
      forall u: User, now: YearMonth ensures Dues.Stats(u, donations, now) == Dues.Stats(u, old(donations), now) {
        Dues.OtherDonationKeepsStats(u, old(donations), d, now);
      }
    }

    // ---- Registration ----

    /** `handleSubmit` of the registration form: on success the new member
        is appended; a refusal leaves the users as they were. Emails that
        were unique stay unique. */
    method Register(f: Registration.RegisterForm, stamp: string, today: string, now: YearMonth)
        returns (err: Option<Registration.RegisterError>)
      modifies this`users
      ensures var r := Registration.Register(old(users), f, stamp, today, now);
        && (r.Registered? ==> err.None? && users == r.users)
        && (r.Refused? ==> err == Some(r.error) && users == old(users))
      ensures Registration.UniqueEmails(old(users)) ==> Registration.UniqueEmails(users)
    {
      var r := Registration.Register(users, f, stamp, today, now);
      if Registration.UniqueEmails(users) {
        Registration.RegisterKeepsEmailsUnique(users, f, stamp, today, now);
      }
      if r.Registered? {
        users := r.users;
        err := None;
      } else {
        err := Some(r.error);
      }
    }

    // ---- Ledger actions ----

    /** `handleFundSubmit`: an edited entry replaces the entries with its id,
        a new one goes to the front; the ledger is saved either way. */
    method SubmitTx(draft: Admin.TxDraft, stamp: string)
      requires Valid()
      modifies this`ledger, this`ledgerStored
      ensures Valid() && ledgerStored
      ensures ledger == Upsert(old(ledger), TxId, draft.id, Admin.TxRecord(draft, stamp))
      ensures draft.id == "" ==> |ledger| == |old(ledger)| + 1 && ledger[0].id == "tx-" + stamp
      ensures draft.id != "" ==> |ledger| == |old(ledger)|
    {
      ledger := Upsert(ledger, TxId, draft.id, Admin.TxRecord(draft, stamp));
      ledgerStored := true;
    }

    /** `deleteTx`, after the confirmation dialog; the ledger is then saved. */
    method DeleteTx(id: string, confirmed: bool)
      requires Valid()
      modifies this`ledger, this`ledgerStored
      ensures Valid()
      ensures !confirmed ==> ledger == old(ledger) && ledgerStored == old(ledgerStored)
      ensures confirmed ==> ledger == RemoveById(old(ledger), TxId, id) && ledgerStored
    {
      if confirmed {
        ledger := RemoveById(ledger, TxId, id);
        ledgerStored := true;
      }
    }

    // ---- Notice actions ----

    /** `handleNoticeSubmit`. */
    method SubmitNotice(draft: Admin.NoticeDraft, stamp: string, today: string)
      modifies this`notices
      ensures notices == Upsert(old(notices), NoticeId, draft.id, Admin.NoticeRecord(draft, stamp, today))
      ensures draft.id == "" ==> |notices| == |old(notices)| + 1 && notices[0].id == "n-" + stamp
    {
      notices := Upsert(notices, NoticeId, draft.id, Admin.NoticeRecord(draft, stamp, today));
    }

    /** `deleteNotice`, after the confirmation dialog. */
    method DeleteNotice(id: string, confirmed: bool)
      modifies this`notices
      ensures !confirmed ==> notices == old(notices)
      ensures confirmed ==> notices == RemoveById(old(notices), NoticeId, id)
    {
      if confirmed {
        notices := RemoveById(notices, NoticeId, id);
      }
    }

    // ---- Activity actions ----

    /** `handleActivitySubmit` with the intended record (see
        Admin.ActivityRecord): a new activity gets a fresh non-empty id. */
    method SubmitActivity(draft: Activity, stamp: string)
      modifies this`activities
      ensures activities == Upsert(old(activities), ActivityId, draft.id, Admin.ActivityRecord(draft, stamp))
      ensures draft.id == "" ==> |activities| == |old(activities)| + 1 && activities[0].id == "act-" + stamp
    {
      activities := Upsert(activities, ActivityId, draft.id, Admin.ActivityRecord(draft, stamp));
    }

    /** `deleteActivity`, after the confirmation dialog. */
    method DeleteActivity(id: string, confirmed: bool)
      modifies this`activities
      ensures !confirmed ==> activities == old(activities)
      ensures confirmed ==> activities == RemoveById(old(activities), ActivityId, id)
    {
      if confirmed {
        activities := RemoveById(activities, ActivityId, id);
      }
    }
  }
}
