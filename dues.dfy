/** The member's own dashboard (src/pages/MemberDashboard.tsx): what a
    member has paid, what is still due, the organisation figures shown to
    members, the pay-due prefill and the approved-only gate. */
module Dues {
  import opened Types
  import opened Sequences
  import opened Fund
  import Admin

  /** Fallback monthly dues when a member has none, or has 0. */
  const DefaultMonthly := 500

  function Max(a: int, b: int): int { if a >= b then a else b }

  /** `monthly_amount || 500`: an absent or zero amount falls back to 500. */
  function EffectiveMonthly(m: Option<int>): (r: int)
    ensures r != 0
    ensures m.Some? && m.value != 0 ==> r == m.value
    ensures m.None? || m.value == 0 ==> r == DefaultMonthly
  {
    if m.None? || m.value == 0 then DefaultMonthly else m.value
  }

  /** Months billed from the join month to `now`, both included. */
  function MonthsElapsed(join: YearMonth, now: YearMonth): (r: int)
    ensures now.year == join.year ==> r == now.month - join.month + 1
    ensures now.month == join.month ==> r == 12 * (now.year - join.year) + 1
    ensures now.year == join.year + 1 && now.month < join.month ==> r == 12 - join.month + now.month + 1
  {
    (now.year - join.year) * 12 + (now.month - join.month) + 1
  }

  /** The calendar month after `m` (months are numbered 0 to 11). */
  function NextMonth(m: YearMonth): YearMonth
  {
    if m.month == 11 then YearMonth(m.year + 1, 0) else YearMonth(m.year, m.month + 1)
  }

  /** The join month itself is month 1, and every further calendar month,
      across a year end too, adds exactly one. */
  lemma MonthsElapsedCounts(join: YearMonth, now: YearMonth)
    requires 0 <= now.month < 12
    ensures MonthsElapsed(join, join) == 1
    ensures MonthsElapsed(join, NextMonth(now)) == MonthsElapsed(join, now) + 1
  {
  }

  /** `donations.filter(d => d.user_id === id)`: this member's donations. */
  function MemberDonations(ds: seq<Donation>, userId: string): (r: seq<Donation>)
    ensures forall k :: 0 <= k < |r| ==> r[k] in ds && r[k].userId == userId
    ensures forall k :: 0 <= k < |ds| && ds[k].userId == userId ==> ds[k] in r
  {
    Filter(ds, (d: Donation) => d.userId == userId)
  }

  /** What one donation adds to a given member's approved total. */
  function OwnContribution(d: Donation, userId: string): int
  {
    if d.userId == userId && d.status == Approved then d.amount else 0
  }

  /** Summing the approved amounts of a member's donations is summing each
      donation's own contribution. */
  lemma {:induction false} MemberApprovedSum(ds: seq<Donation>, userId: string)
    ensures Sum(MemberDonations(ds, userId), DonationContribution) == Sum(ds, (d: Donation) => OwnContribution(d, userId))
    decreases |ds|
  {
    if ds != [] {
      MemberApprovedSum(ds[1..], userId);
    }
  }

  /** The approved-then-summed total of the member's donations: it counts
      exactly the donations that are both theirs and approved. */
  function ApprovedPaid(ds: seq<Donation>, userId: string): (r: int)
    ensures r == Sum(ds, (d: Donation) => OwnContribution(d, userId))
  {
    MemberApprovedSum(ds, userId);
    ApprovedDonationSum(MemberDonations(ds, userId))
  }

  /** A donation added to the list changes a member's approved total only
      if it is theirs and approved, and then by its amount. */
  lemma PaidAfterAdding(ds: seq<Donation>, userId: string, d: Donation)
    ensures ApprovedPaid([d] + ds, userId) == ApprovedPaid(ds, userId) + OwnContribution(d, userId)
  {
    assert ([d] + ds)[1..] == ds;
  }

  datatype MemberStats = MemberStats(totalPaid: int, totalDue: int, monthlyAmount: int, manualDue: int)

  /** `myStats` of `loadMemberData` for member `u` at month `now`. The join
      month is `created_at`, or `now` when it is missing. */
  function Stats(u: User, ds: seq<Donation>, now: YearMonth): (r: MemberStats)
    ensures r.totalDue >= 0
    ensures r.totalDue == Max(0, r.manualDue)
    ensures r.monthlyAmount == EffectiveMonthly(u.monthlyAmount)
    ensures u.manualTotalPaid.Some? ==> r.totalPaid == u.manualTotalPaid.value
    ensures u.manualTotalPaid.None? ==> r.totalPaid == ApprovedPaid(ds, u.id)
    ensures u.manualDue.Some? ==> r.manualDue == u.manualDue.value
    ensures u.manualDue.None? ==> r.manualDue >= 0 && r.manualDue == r.totalDue
    ensures u.manualDue.None? ==>
      r.totalDue == Max(0, MonthsElapsed(u.createdAt.GetOr(now), now) * r.monthlyAmount - ApprovedPaid(ds, u.id))
  {
    var paid := ApprovedPaid(ds, u.id);
    var join := u.createdAt.GetOr(now);
    var expected := MonthsElapsed(join, now) * EffectiveMonthly(u.monthlyAmount);
    var finalPaid := if u.manualTotalPaid.Some? then u.manualTotalPaid.value else paid;
    var finalDue := if u.manualDue.Some? then u.manualDue.value else Max(0, expected - paid);
    MemberStats(finalPaid, Max(0, finalDue), EffectiveMonthly(u.monthlyAmount), finalDue)
  }

  /** Without a manual override, an approved payment of one's own never
      raises the due, and lowers it by its full amount while the due covers it. */
  lemma PaymentLowersDue(u: User, ds: seq<Donation>, d: Donation, now: YearMonth)
    requires u.manualDue.None? && d.userId == u.id && d.status == Approved && d.amount >= 0
    ensures Stats(u, [d] + ds, now).totalDue <= Stats(u, ds, now).totalDue
    ensures Stats(u, ds, now).totalDue >= d.amount ==>
      Stats(u, [d] + ds, now).totalDue == Stats(u, ds, now).totalDue - d.amount
  {
    PaidAfterAdding(ds, u.id, d);
  }

  /** Someone else's donation, or one of one's own still pending or
      rejected, leaves a member's figures unchanged. */
  lemma OtherDonationKeepsStats(u: User, ds: seq<Donation>, d: Donation, now: YearMonth)
    requires d.userId != u.id || d.status != Approved
    ensures Stats(u, [d] + ds, now) == Stats(u, ds, now)
  {
    PaidAfterAdding(ds, u.id, d);
  }

  datatype OrgStats = OrgStats(totalFund: int, totalMembers: int, totalActivities: int)

  /** `orgStats`: the same fund balance the admin and the fund page compute. */
  function MemberOrgStats(users: seq<User>, ds: seq<Donation>, l: seq<FundTransaction>, acts: seq<Activity>): (r: OrgStats)
    ensures r.totalFund == OrgTotals(l, ds).totalBalance
    ensures r.totalFund == Admin.DashboardStats(users, ds, l).totalFund
    ensures r.totalMembers == Admin.DashboardStats(users, ds, l).totalMembers
    ensures r.totalActivities == |acts|
  {
    OrgStats((LedgerIncome(l) + ApprovedDonationSum(ds)) - LedgerExpense(l),
             |Filter(users, Admin.UserApproved)|, |acts|)
  }

  datatype MemberView = MemberView(currentUser: User, myDonations: seq<Donation>, myStats: MemberStats, orgStats: OrgStats)

  /** `loadMemberData` for the signed-in `user`: the first stored record with
      the same id, or `user` itself when the store has none; then that
      record's donations and figures, and the organisation figures. */
  function LoadMemberData(users: seq<User>, user: User, ds: seq<Donation>, l: seq<FundTransaction>,
                          acts: seq<Activity>, now: YearMonth): (r: MemberView)
    ensures r.currentUser.id == user.id
    ensures r.currentUser == user || r.currentUser in users
    ensures (exists i :: 0 <= i < |users| && users[i].id == user.id) ==> r.currentUser in users
    ensures forall k :: 0 <= k < |r.myDonations| ==> r.myDonations[k].userId == user.id
    ensures forall i :: IsFirstKey(users, UserId, user.id, i) ==> r.currentUser == users[i]
    ensures (forall i :: 0 <= i < |users| ==> users[i].id != user.id) ==> r.currentUser == user
    ensures r.myDonations == MemberDonations(ds, user.id)
    ensures r.myStats == Stats(r.currentUser, ds, now)
    ensures r.myStats.totalDue >= 0
    ensures r.orgStats == MemberOrgStats(users, ds, l, acts)
    ensures r.orgStats.totalFund == OrgTotals(l, ds).totalBalance
  {
    FirstKeyIsUnique(users, UserId, user.id);
    var current := FindByKey(users, UserId, user.id).GetOr(user);
    MemberView(current, MemberDonations(ds, user.id), Stats(current, ds, now), MemberOrgStats(users, ds, l, acts))
  }

  /** `handlePayDue`: the outstanding due when there is one, otherwise one month's dues. */
  function PayDuePrefill(s: MemberStats): (r: int)
    ensures s.totalDue > 0 ==> r == s.totalDue
    ensures s.totalDue <= 0 ==> r == s.monthlyAmount
  {
    if s.totalDue > 0 then s.totalDue else s.monthlyAmount
  }

  /** For figures computed by Stats the prefill is never 0. */
  lemma PrefillNonZero(u: User, ds: seq<Donation>, now: YearMonth)
    ensures PayDuePrefill(Stats(u, ds, now)) != 0
  {
  }

  /** Only an approved member sees the dashboard; everyone else gets the
      "under review" page. */
  function Dashboard(v: MemberView): (r: Option<MemberView>)
    ensures r.Some? <==> v.currentUser.status == Approved
    ensures r.Some? ==> r.value == v
  {
    if v.currentUser.status == Approved then Some(v) else None
  }

  /** The worked example: a member who joined in January 2025 with dues of
      500 owes 1500 in March 2025; after an approved payment of 1000 owes 500;
      and with a manual due of 0 owes nothing. */
  lemma DuesScenario(u: User, d: Donation)
    requires u.createdAt == Some(YearMonth(2025, 0)) && u.monthlyAmount == Some(500)
    requires u.manualDue.None? && u.manualTotalPaid.None?
    requires d.userId == u.id && d.status == Approved && d.amount == 1000
    ensures Stats(u, [], YearMonth(2025, 2)).totalDue == 1500
    ensures Stats(u, [d], YearMonth(2025, 2)).totalDue == 500
    ensures Stats(u, [d], YearMonth(2025, 2)).totalPaid == 1000
    ensures Stats(u.(manualDue := Some(0)), [d], YearMonth(2025, 2)).totalDue == 0
  {
    PaidAfterAdding([], u.id, d);
    assert [d] + [] == [d];
  }
}
