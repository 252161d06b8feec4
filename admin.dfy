/** The pure part of the admin back-office (src/pages/AdminDashboard.tsx):
    the overview figures, the member search, and the records each handler
    builds before it writes a list back to the store. The handlers
    themselves, which replace a stored list, are methods of
    Store.RecordStore. */
module Admin {
  import opened Types
  import opened Sequences
  import opened Fund

  predicate UserPending(u: User) { u.status == Pending }
  predicate UserApproved(u: User) { u.status == Approved }
  predicate UserRejected(u: User) { u.status == Rejected }
  predicate DonationPending(d: Donation) { d.status == Pending }
  predicate DonationRejected(d: Donation) { d.status == Rejected }

  /** Three predicates that hold one at a time split a list in three. */
  lemma {:induction false} CountPartition<T>(s: seq<T>, p: T -> bool, q: T -> bool, r: T -> bool)
    requires forall x :: (p(x) || q(x) || r(x)) && !(p(x) && q(x)) && !(p(x) && r(x)) && !(q(x) && r(x))
    ensures |Filter(s, p)| + |Filter(s, q)| + |Filter(s, r)| == |s|
    decreases |s|
  {
    if s != [] {
      CountPartition(s[1..], p, q, r);
    }
  }

  datatype AdminStats = AdminStats(totalFund: int, pendingUsers: int, pendingDonations: int, totalMembers: int)

  /** The overview cards of `loadAllData`. Every user is pending, approved
      or rejected, so the two counted groups and the rejected ones make up
      the whole list; likewise for donations. */
  function DashboardStats(users: seq<User>, ds: seq<Donation>, l: seq<FundTransaction>): (r: AdminStats)
    ensures r.totalFund == OrgTotals(l, ds).totalBalance
    ensures r.pendingUsers == |Filter(users, UserPending)|
    ensures r.totalMembers == |Filter(users, UserApproved)|
    ensures r.pendingDonations == |Filter(ds, DonationPending)|
    ensures r.pendingUsers + r.totalMembers + |Filter(users, UserRejected)| == |users|
    ensures r.pendingDonations + |Filter(ds, IsApproved)| + |Filter(ds, DonationRejected)| == |ds|
  {
    CountPartition(users, UserPending, UserApproved, UserRejected);
    CountPartition(ds, DonationPending, IsApproved, DonationRejected);
    AdminStats((ApprovedDonationSum(ds) + LedgerIncome(l)) - LedgerExpense(l),
               |Filter(users, UserPending)|,
               |Filter(ds, DonationPending)|,
               |Filter(users, UserApproved)|)
  }

  // ---- Member search (`filteredUsers`) ----

  /** `s.toLowerCase()`, character by character with an abstract case map. */
  function Lower(s: string, lowerChar: char -> char): string
  {
    seq(|s|, i requires 0 <= i < |s| => lowerChar(s[i]))
  }

  /** `s.includes(sub)`. */
  predicate Contains(s: string, sub: string)
  {
    exists i :: 0 <= i <= |s| && OccursAt(s, sub, i)
  }

  predicate OccursAt(s: string, sub: string, i: int)
  {
    0 <= i <= |s| - |sub| && s[i..i + |sub|] == sub
  }

  /** The lower-cased name contains the lower-cased query, or the phone,
      when there is one, contains the query as typed. */
  predicate MatchesQuery(u: User, query: string, lowerChar: char -> char)
  {
    Contains(Lower(u.name, lowerChar), Lower(query, lowerChar))
    || (u.phone.Some? && Contains(u.phone.value, query))
  }

  function FilteredUsers(users: seq<User>, query: string, lowerChar: char -> char): (r: seq<User>)
    ensures forall k :: 0 <= k < |r| ==> r[k] in users && MatchesQuery(r[k], query, lowerChar)
    ensures forall k :: 0 <= k < |users| && MatchesQuery(users[k], query, lowerChar) ==> users[k] in r
    ensures query == "" ==> r == users
  {
    EmptyQueryMatchesAll(users, lowerChar);
    Filter(users, u => MatchesQuery(u, query, lowerChar))
  }

  /** An empty query is contained in every name. */
  lemma EmptyQueryMatchesAll(users: seq<User>, lowerChar: char -> char)
    ensures forall k :: 0 <= k < |users| ==> MatchesQuery(users[k], "", lowerChar)
  {
    forall k | 0 <= k < |users| ensures MatchesQuery(users[k], "", lowerChar) {
      var name := Lower(users[k].name, lowerChar);
      assert OccursAt(name, Lower("", lowerChar), 0);
    }
  }

  // ---- Member review ----

  /** The reviewed record written back by `handleMemberStatusUpdate`: the
      decision and the `approved` flag are set together, and every other
      field is the reviewed user's. */
  function Reviewed(u: User, decision: Status): (r: User)
    ensures r.status == decision && r.approved == (decision == Approved)
    ensures r.(status := u.status, approved := u.approved) == u
  {
    u.(status := decision, approved := decision == Approved)
  }

  /** Approving a pending applicant whose id is unique moves them from the
      pending count to the member count and leaves the fund alone. */
  lemma ApprovalMovesApplicant(users: seq<User>, ds: seq<Donation>, l: seq<FundTransaction>, i: int, reviewing: User)
    requires 0 <= i < |users| && UniqueKeys(users, UserId)
    requires users[i].status == Pending && reviewing.id == users[i].id
    ensures var before := DashboardStats(users, ds, l);
      var after := DashboardStats(ReplaceById(users, UserId, reviewing.id, Reviewed(reviewing, Approved)), ds, l);
      && after.pendingUsers == before.pendingUsers - 1
      && after.totalMembers == before.totalMembers + 1
      && after.totalFund == before.totalFund
  {
    var y := Reviewed(reviewing, Approved);
    ReplaceUniqueAt(users, UserId, i, y);
    FilterCountUpdate(users, i, y, UserPending);
    FilterCountUpdate(users, i, y, UserApproved);
  }

  // ---- Messages ----

  /** The characters `String.prototype.trim` removes. */
  predicate IsWhitespace(c: char)
  {
    c == ' ' || c == '\t' || c == '\n' || c == '\r' || c == '\U{000B}' || c == '\U{000C}'
    || c == '\U{00A0}' || c == '\U{1680}' || ('\U{2000}' <= c <= '\U{200A}')
    || c == '\U{2028}' || c == '\U{2029}' || c == '\U{202F}' || c == '\U{205F}'
    || c == '\U{3000}' || c == '\U{FEFF}'
  }

  /** `!text.trim()`: the text is empty or only whitespace. */
  predicate IsBlank(text: string)
  {
    forall i :: 0 <= i < |text| ==> IsWhitespace(text[i])
  }

  /** `trimStart`: drops leading whitespace. */
  function TrimStart(s: string): (r: string)
    ensures |r| <= |s| && r == s[|s| - |r|..]
    ensures forall i :: 0 <= i < |s| - |r| ==> IsWhitespace(s[i])
    ensures r != [] ==> !IsWhitespace(r[0])
  {
    if s != [] && IsWhitespace(s[0]) then TrimStart(s[1..]) else s
  }

  /** `trimEnd`: drops trailing whitespace. */
  function TrimEnd(s: string): (r: string)
    ensures |r| <= |s| && r == s[..|r|]
    ensures forall i :: |r| <= i < |s| ==> IsWhitespace(s[i])
    ensures r != [] ==> !IsWhitespace(r[|r| - 1])
  {
    if s != [] && IsWhitespace(s[|s| - 1]) then TrimEnd(s[..|s| - 1]) else s
  }

  /** `trim`: both ends. */
  function Trim(s: string): string { TrimEnd(TrimStart(s)) }

  /** A text counts as blank exactly when trimming leaves nothing. */
  lemma BlankIffTrimEmpty(text: string)
    ensures IsBlank(text) <==> Trim(text) == ""
  {
    var t := TrimStart(text);
    if t != [] {
      // `t` starts with a kept character, which trimming the end never removes.
      assert TrimEnd(t)[0] == t[0];
    }
  }

  function MessagesOf(u: User): seq<Message> { u.messages.GetOr([]) }

  function AdminMessage(text: string, stamp: string, date: string): (m: Message)
    ensures m.sender == "Admin" && m.text == text
  {
    Message(stamp, text, date, "Admin")
  }

  /** The user with one more message at the end of the log; no other field changes. */
  function WithMessage(u: User, m: Message): (r: User)
    ensures MessagesOf(r) == MessagesOf(u) + [m]
    ensures r.(messages := u.messages) == u
  {
    u.(messages := Some(MessagesOf(u) + [m]))
  }

  // ---- Donation verification ----

  /** `donations.map(d => d.id === id ? { ...d, status } : d)`. */
  function WithDonationStatus(ds: seq<Donation>, id: string, s: Status): (r: seq<Donation>)
    ensures |r| == |ds|
    ensures forall k :: 0 <= k < |ds| && ds[k].id == id ==> r[k] == ds[k].(status := s)
    ensures forall k :: 0 <= k < |ds| && ds[k].id != id ==> r[k] == ds[k]
  {
    if ds == [] then []
    else [if ds[0].id == id then ds[0].(status := s) else ds[0]] + WithDonationStatus(ds[1..], id, s)
  }

  /** A second verification of the same id overrides the first. */
  lemma VerifyLastWins(ds: seq<Donation>, id: string, s1: Status, s2: Status)
    ensures WithDonationStatus(WithDonationStatus(ds, id, s1), id, s2) == WithDonationStatus(ds, id, s2)
  {
    var a := WithDonationStatus(WithDonationStatus(ds, id, s1), id, s2);
    var b := WithDonationStatus(ds, id, s2);
    assert forall k :: 0 <= k < |a| ==> a[k] == b[k];
  }

  /** Moving donations that are not approved to another non-approved status
      (Pending to Rejected) leaves every fund total as it was. */
  lemma NonApprovingVerifyKeepsTotals(l: seq<FundTransaction>, ds: seq<Donation>, id: string, s: Status)
    requires s != Approved
    requires forall k :: 0 <= k < |ds| && ds[k].id == id ==> ds[k].status != Approved
    ensures OrgTotals(l, WithDonationStatus(ds, id, s)) == OrgTotals(l, ds)
  {
    SumPointwise(WithDonationStatus(ds, id, s), ds, DonationContribution);
  }

  /** Approving and then rejecting a donation that was not approved leaves
      the totals identical to never having approved it. */
  lemma ApproveThenRejectKeepsTotals(l: seq<FundTransaction>, ds: seq<Donation>, id: string)
    requires forall k :: 0 <= k < |ds| && ds[k].id == id ==> ds[k].status != Approved
    ensures OrgTotals(l, WithDonationStatus(WithDonationStatus(ds, id, Approved), id, Rejected)) == OrgTotals(l, ds)
  {
    VerifyLastWins(ds, id, Approved, Rejected);
    NonApprovingVerifyKeepsTotals(l, ds, id, Rejected);
  }

  /** Approving a not-yet-approved donation with a unique id raises income
      and balance by exactly its amount. */
  lemma ApproveRaisesFund(l: seq<FundTransaction>, ds: seq<Donation>, i: int)
    requires 0 <= i < |ds| && UniqueKeys(ds, DonationId) && ds[i].status != Approved
    ensures var before, after := OrgTotals(l, ds), OrgTotals(l, WithDonationStatus(ds, ds[i].id, Approved));
      && after.totalIncome == before.totalIncome + ds[i].amount
      && after.totalExpense == before.totalExpense
      && after.totalBalance == before.totalBalance + ds[i].amount
  {
    var y := ds[i].(status := Approved);
    var after := WithDonationStatus(ds, ds[i].id, Approved);
    assert after == ds[i := y] by {
      forall k | 0 <= k < |ds| ensures after[k] == ds[i := y][k] {
        if k != i {
          assert DonationId(ds[k]) != DonationId(ds[i]) by {
            if k < i { assert UniqueKeys(ds, DonationId); } else { assert UniqueKeys(ds, DonationId); }
          }
        }
      }
    }
    SumUpdate(ds, i, y, DonationContribution);
  }

  // ---- Deletion ----

  /** Deleting a ledger entry whose id is unique removes exactly its
      contribution from the totals. */
  lemma DeleteTxEffect(l: seq<FundTransaction>, ds: seq<Donation>, i: int)
    requires 0 <= i < |l| && UniqueKeys(l, TxId)
    ensures var before, after := OrgTotals(l, ds), OrgTotals(RemoveById(l, TxId, l[i].id), ds);
      && after.totalIncome == before.totalIncome - IncomeContribution(l[i])
      && after.totalExpense == before.totalExpense - ExpenseContribution(l[i])
      && after.totalBalance == before.totalBalance - SignedAmount(l[i])
  {
    RemoveUniqueAt(l, TxId, i);
    SumRemoveAt(l, i, IncomeContribution);
    SumRemoveAt(l, i, ExpenseContribution);
  }

  /** Deleting a donation whose id is unique lowers the fund by its amount
      when it was approved, and changes nothing otherwise. */
  lemma DeleteDonationEffect(l: seq<FundTransaction>, ds: seq<Donation>, i: int)
    requires 0 <= i < |ds| && UniqueKeys(ds, DonationId)
    ensures var before, after := OrgTotals(l, ds), OrgTotals(l, RemoveById(ds, DonationId, ds[i].id));
      && after.totalExpense == before.totalExpense
      && after.totalBalance == before.totalBalance - (if ds[i].status == Approved then ds[i].amount else 0)
  {
    RemoveUniqueAt(ds, DonationId, i);
    SumRemoveAt(ds, i, DonationContribution);
  }

  // ---- Ledger, notice and activity forms ----

  datatype TxDraft = TxDraft(id: string, kind: TxKind, category: string, amount: int, description: string, date: string)

  /** `txData`: the draft's id when editing, otherwise `'tx-' + Date.now()`. */
  function TxRecord(draft: TxDraft, stamp: string): (t: FundTransaction)
    ensures t.id != ""
    ensures draft.id != "" ==> t.id == draft.id
    ensures t.kind == draft.kind && t.amount == draft.amount && t.referenceId.None?
  {
    FundTransaction(if draft.id != "" then draft.id else "tx-" + stamp,
                    draft.kind, draft.category, draft.amount, draft.description, draft.date, None)
  }

  datatype NoticeDraft = NoticeDraft(id: string, title: string, content: string, priority: Priority)

  /** `noticeData`: like `txData`, and dated with today's date even when editing. */
  function NoticeRecord(draft: NoticeDraft, stamp: string, today: string): (n: Notice)
    ensures n.id != ""
    ensures draft.id != "" ==> n.id == draft.id
    ensures n.date == today && n.title == draft.title && n.priority == draft.priority
  {
    Notice(if draft.id != "" then draft.id else "n-" + stamp, draft.title, draft.content, today, draft.priority)
  }

  /** `{ id: newActivity.id || 'act-' + Date.now(), ...newActivity }` as the
      source writes it: the spread comes last, so its `id` (the empty string
      for a new activity) overwrites the generated one. */
  function ActivityRecordAsWritten(draft: Activity, stamp: string): (a: Activity)
    ensures a.id == draft.id
  {
    var generated := draft.(id := if draft.id != "" then draft.id else "act-" + stamp);
    generated.(id := draft.id, title := draft.title, description := draft.description,
               image := draft.image, date := draft.date, location := draft.location)
  }

  /** Two new activities saved as the source writes it share the id "", and
      deleting that id removes both. */
  lemma AsWrittenNewActivitiesCollide(acts: seq<Activity>, d1: Activity, d2: Activity, s1: string, s2: string)
    requires d1.id == "" && d2.id == ""
    ensures var l := Upsert(Upsert(acts, ActivityId, d1.id, ActivityRecordAsWritten(d1, s1)),
                            ActivityId, d2.id, ActivityRecordAsWritten(d2, s2));
      && l[0].id == "" && l[1].id == ""
      && |RemoveById(l, ActivityId, "")| <= |l| - 2
  {
    var l1 := Upsert(acts, ActivityId, d1.id, ActivityRecordAsWritten(d1, s1));
    var l := Upsert(l1, ActivityId, d2.id, ActivityRecordAsWritten(d2, s2));
    assert l == [ActivityRecordAsWritten(d2, s2), ActivityRecordAsWritten(d1, s1)] + acts;
    assert l[2..] == acts;
    assert RemoveById(l, ActivityId, "") == RemoveById(l[1..], ActivityId, "");
    assert l[1..][1..] == acts;
    assert RemoveById(l[1..], ActivityId, "") == RemoveById(acts, ActivityId, "");
  }

  /** The evidently intended activity record: the draft with its id kept
      when editing and generated as `'act-' + Date.now()` when new. */
  function ActivityRecord(draft: Activity, stamp: string): (a: Activity)
    ensures a.id != ""
    ensures draft.id != "" ==> a.id == draft.id
    ensures draft.id == "" ==> a.id == "act-" + stamp
    ensures a.(id := draft.id) == draft
  {
    draft.(id := if draft.id != "" then draft.id else "act-" + stamp)
  }

  /** With the intended record, two new activities saved at different
      instants get different, non-empty ids. */
  lemma NewActivitiesGetDistinctIds(acts: seq<Activity>, d1: Activity, d2: Activity, s1: string, s2: string)
    requires d1.id == "" && d2.id == "" && s1 != s2
    ensures var l := Upsert(Upsert(acts, ActivityId, d1.id, ActivityRecord(d1, s1)),
                            ActivityId, d2.id, ActivityRecord(d2, s2));
      && l[0].id == "act-" + s2 && l[1].id == "act-" + s1 && l[0].id != l[1].id
  {
    var l1 := Upsert(acts, ActivityId, d1.id, ActivityRecord(d1, s1));
    assert l1[0].id == "act-" + s1;
    assert ("act-" + s1)[4..] == s1 && ("act-" + s2)[4..] == s2;
  }
}
