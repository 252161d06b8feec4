/** The organisation's fund figures and the public fund page
    (src/pages/OrganizationFund.tsx).

    The same totals formula is written out three times in the source:
    AdminDashboard.tsx:50-63, MemberDashboard.tsx:63-71 and
    OrganizationFund.tsx:49-60. It is defined once here, as the source writes
    it (filter, then reduce), and its meaning is stated record by record:
    every ledger entry counts once on its own side, every approved donation
    counts as income, and every other donation counts for nothing. */
module Fund {
  import opened Types
  import opened Sequences

  predicate IsApproved(d: Donation) { d.status == Approved }
  predicate IsIncome(t: FundTransaction) { t.kind == Income }
  predicate IsExpense(t: FundTransaction) { t.kind == Expense }
  function DonationAmount(d: Donation): int { d.amount }
  function TxAmount(t: FundTransaction): int { t.amount }

  // What one record adds to each figure.
  function DonationContribution(d: Donation): int { if d.status == Approved then d.amount else 0 }
  function IncomeContribution(t: FundTransaction): int { if t.kind == Income then t.amount else 0 }
  function ExpenseContribution(t: FundTransaction): int { if t.kind == Expense then t.amount else 0 }

  /** `donations.filter(d => d.status === 'Approved').reduce(+amount)`: each
      approved donation counts its amount once, every other donation nothing. */
  function ApprovedDonationSum(ds: seq<Donation>): (r: int)
    ensures r == Sum(ds, DonationContribution)
  {
    SumFilter(ds, IsApproved, DonationAmount, DonationContribution);
    Sum(Filter(ds, IsApproved), DonationAmount)
  }

  /** `ledger.filter(t => t.type === 'Income').reduce(+amount)`: each income
      entry counts once, each expense entry nothing. */
  function LedgerIncome(l: seq<FundTransaction>): (r: int)
    ensures r == Sum(l, IncomeContribution)
  {
    SumFilter(l, IsIncome, TxAmount, IncomeContribution);
    Sum(Filter(l, IsIncome), TxAmount)
  }

  /** `ledger.filter(t => t.type === 'Expense').reduce(+amount)`: each expense
      entry counts once, each income entry nothing. */
  function LedgerExpense(l: seq<FundTransaction>): (r: int)
    ensures r == Sum(l, ExpenseContribution)
  {
    SumFilter(l, IsExpense, TxAmount, ExpenseContribution);
    Sum(Filter(l, IsExpense), TxAmount)
  }
  function SignedAmount(t: FundTransaction): int { if t.kind == Income then t.amount else -t.amount }

  datatype Totals = Totals(totalIncome: int, totalExpense: int, totalBalance: int)

  /** The fund totals: income is ledger income plus approved donations,
      expense is ledger expense, and the balance is their difference, with
      no floor at zero. */
  function OrgTotals(l: seq<FundTransaction>, ds: seq<Donation>): (r: Totals)
    ensures r.totalBalance == r.totalIncome - r.totalExpense
    ensures r.totalIncome == Sum(l, IncomeContribution) + Sum(ds, DonationContribution)
    ensures r.totalExpense == Sum(l, ExpenseContribution)
    ensures r.totalBalance == Sum(l, SignedAmount) + Sum(ds, DonationContribution)
  {
    SumDifference(l, SignedAmount, IncomeContribution, ExpenseContribution);
    var income := LedgerIncome(l) + ApprovedDonationSum(ds);
    var expense := LedgerExpense(l);
    Totals(income, expense, income - expense)
  }

  /** Filter-then-sum equals summing a weight that is zero off the filter. */
  lemma {:induction false} SumFilter<T>(s: seq<T>, p: T -> bool, w: T -> int, v: T -> int)
    requires forall x :: v(x) == if p(x) then w(x) else 0
    ensures Sum(Filter(s, p), w) == Sum(s, v)
    decreases |s|
  {
    if s != [] {
      SumFilter(s[1..], p, w, v);
    }
  }

  lemma {:induction false} SumDifference<T>(s: seq<T>, u: T -> int, v: T -> int, w: T -> int)
    requires forall x :: u(x) == v(x) - w(x)
    ensures Sum(s, u) == Sum(s, v) - Sum(s, w)
    decreases |s|
  {
    if s != [] {
      SumDifference(s[1..], u, v, w);
    }
  }

  lemma {:induction false} SumAddition<T>(s: seq<T>, u: T -> int, v: T -> int, w: T -> int)
    requires forall x :: u(x) == v(x) + w(x)
    ensures Sum(s, u) == Sum(s, v) + Sum(s, w)
    decreases |s|
  {
    if s != [] {
      SumAddition(s[1..], u, v, w);
    }
  }

  /** A ledger entry is Income or Expense and nothing else, so the two
      ledger sums together account for every entry exactly once. */
  lemma LedgerSplit(l: seq<FundTransaction>)
    ensures LedgerIncome(l) + LedgerExpense(l) == Sum(l, TxAmount)
  {
    SumFilter(l, IsIncome, TxAmount, IncomeContribution);
    SumFilter(l, IsExpense, TxAmount, ExpenseContribution);
    SumAddition(l, TxAmount, IncomeContribution, ExpenseContribution);
  }

  /** The totals do not depend on the order of either record list. */
  lemma TotalsPermutationInvariant(l1: seq<FundTransaction>, l2: seq<FundTransaction>,
                                   ds1: seq<Donation>, ds2: seq<Donation>)
    requires multiset(l1) == multiset(l2) && multiset(ds1) == multiset(ds2)
    ensures OrgTotals(l1, ds1) == OrgTotals(l2, ds2)
  {
    SumPermutation(l1, l2, IncomeContribution);
    SumPermutation(l1, l2, ExpenseContribution);
    SumPermutation(ds1, ds2, DonationContribution);
  }

  /** Only approved donations reach the totals: dropping every pending and
      rejected donation changes nothing. */
  lemma OnlyApprovedCount(l: seq<FundTransaction>, ds: seq<Donation>)
    ensures OrgTotals(l, ds) == OrgTotals(l, Filter(ds, IsApproved))
  {
    var a := Filter(ds, IsApproved);
    assert Filter(a, IsApproved) == a;
  }

  /** Adding a donation that is not approved leaves the totals unchanged;
      adding an approved one raises income and balance by its amount. */
  lemma AddDonationEffect(l: seq<FundTransaction>, ds: seq<Donation>, d: Donation)
    ensures var before, after := OrgTotals(l, ds), OrgTotals(l, [d] + ds);
      && after.totalExpense == before.totalExpense
      && after.totalIncome == before.totalIncome + (if d.status == Approved then d.amount else 0)
      && after.totalBalance == before.totalBalance + (if d.status == Approved then d.amount else 0)
  {
    assert ([d] + ds)[1..] == ds;
  }

  // ---- The organisation fund page (OrganizationFund.tsx) ----

  /** The founder's donation the page stores when no ledger has been saved yet. */
  const SeedEntry := FundTransaction("1", Income, "প্রতিষ্ঠাতা অনুদান", 45000, "সংগঠন শুরুর অনুদান", "২০২৫-০১-০১", None)

  /** Without a saved ledger the page starts from the founder's donation alone:
      45000 of income, no expense, on top of the approved donations. */
  lemma SeededLedger(ds: seq<Donation>)
    ensures SeedEntry.kind == Income && SeedEntry.amount == 45000 && SeedEntry.referenceId.None?
    ensures OrgTotals([SeedEntry], ds).totalIncome == 45000 + ApprovedDonationSum(ds)
    ensures OrgTotals([SeedEntry], ds).totalExpense == 0
    ensures OrgTotals([SeedEntry], ds).totalBalance == 45000 + ApprovedDonationSum(ds)
  {
    assert [SeedEntry][1..] == [];
  }

  function MethodName(m: PayMethod): string
  {
    match m
    case Bkash => "Bkash"
    case Nagad => "Nagad"
    case Rocket => "Rocket"
    case Cash => "Cash"
    case Bank => "Bank"
  }

  /** `d.user_name || 'সদস্য'`: an absent or empty name falls back to "member". */
  function DonorName(d: Donation): (r: string)
    ensures r != ""
    ensures d.userName.Some? && d.userName.value != "" ==> r == d.userName.value
  {
    if d.userName.None? || d.userName.value == "" then "সদস্য" else d.userName.value
  }

  /** The display-only income entry derived from one approved donation. */
  function FromDonation(d: Donation): (t: FundTransaction)
    ensures t.kind == Income && t.amount == d.amount
    ensures t.id == "don-" + d.id && t.referenceId == Some(d.id) && t.date == d.createdAt
  {
    FundTransaction("don-" + d.id, Income, "সদস্য চাঁদা",
                    d.amount, DonorName(d) + " এর চাঁদা (" + MethodName(d.payMethod) + ")",
                    d.createdAt, Some(d.id))
  }

  /** `approved.map(FromDonation)`. */
  function IncomeEntries(a: seq<Donation>): (r: seq<FundTransaction>)
    ensures |r| == |a|
    ensures forall k :: 0 <= k < |a| ==> r[k] == FromDonation(a[k])
  {
    if a == [] then [] else [FromDonation(a[0])] + IncomeEntries(a[1..])
  }

  /** Each donation's entry is among the entries, and each entry comes from a donation. */
  lemma IncomeEntriesMembership(a: seq<Donation>)
    ensures forall d :: d in a ==> FromDonation(d) in IncomeEntries(a)
    ensures forall t :: t in IncomeEntries(a) ==> exists d :: d in a && t == FromDonation(d)
  {
    var r := IncomeEntries(a);
    forall d | d in a ensures FromDonation(d) in r {
      var k :| 0 <= k < |a| && a[k] == d;
      assert r[k] == FromDonation(d);
    }
    forall t | t in r ensures exists d :: d in a && t == FromDonation(d) {
      var k :| 0 <= k < |r| && r[k] == t;
      assert a[k] in a;
    }
  }

  /** One derived income entry per approved donation, in donation order: every
      approved donation yields its entry, and every entry is an approved
      donation's. */
  function DerivedIncome(ds: seq<Donation>): (r: seq<FundTransaction>)
    ensures |r| == |Filter(ds, IsApproved)|
    ensures forall k :: 0 <= k < |r| ==> r[k] == FromDonation(Filter(ds, IsApproved)[k])
    ensures forall d :: d in ds && IsApproved(d) ==> FromDonation(d) in r
    ensures forall t :: t in r ==> exists d :: d in ds && IsApproved(d) && t == FromDonation(d)
  {
    IncomeEntriesMembership(Filter(ds, IsApproved));
    IncomeEntries(Filter(ds, IsApproved))
  }

  lemma {:induction false} IncomeEntriesSums(a: seq<Donation>)
    ensures Sum(IncomeEntries(a), IncomeContribution) == Sum(a, DonationAmount)
    ensures Sum(IncomeEntries(a), ExpenseContribution) == 0
    decreases |a|
  {
    if a != [] {
      assert IncomeEntries(a)[1..] == IncomeEntries(a[1..]);
      IncomeEntriesSums(a[1..]);
    }
  }

  /** The derived entries carry exactly the approved-donation income, and no expense. */
  lemma DerivedIncomeSums(ds: seq<Donation>)
    ensures Sum(DerivedIncome(ds), IncomeContribution) == ApprovedDonationSum(ds)
    ensures Sum(DerivedIncome(ds), ExpenseContribution) == 0
  {
    IncomeEntriesSums(Filter(ds, IsApproved));
  }

  /** Newest first by an abstract date key (the page compares `new Date(date)`). */
  predicate NewestFirst(s: seq<FundTransaction>, dateKey: string -> int)
  {
    forall i :: 0 <= i < |s| - 1 ==> dateKey(s[i].date) >= dateKey(s[i + 1].date)
  }

  /** Newest-first between neighbours means newest-first between any two entries. */
  lemma {:induction false} NewestFirstPairwise(s: seq<FundTransaction>, dateKey: string -> int, i: int, j: int)
    requires NewestFirst(s, dateKey) && 0 <= i <= j < |s|
    ensures dateKey(s[i].date) >= dateKey(s[j].date)
    decreases j - i
  {
    if i < j {
      NewestFirstPairwise(s, dateKey, i + 1, j);
    }
  }

  /** Putting an entry in front of a newest-first list that it is not older
      than keeps the list newest first; dropping the front entry does too. */
  lemma ConsNewestFirst(y: FundTransaction, t: seq<FundTransaction>, dateKey: string -> int)
    requires NewestFirst(t, dateKey) && (t == [] || dateKey(y.date) >= dateKey(t[0].date))
    ensures NewestFirst([y] + t, dateKey)
    ensures t != [] ==> NewestFirst(t[1..], dateKey)
  {
    var r := [y] + t;
    forall i | 0 <= i < |r| - 1 ensures dateKey(r[i].date) >= dateKey(r[i + 1].date) {
      if i > 0 { assert r[i] == t[i - 1] && r[i + 1] == t[i]; }
    }
    if t != [] {
      forall i | 0 <= i < |t| - 2 ensures dateKey(t[1..][i].date) >= dateKey(t[1..][i + 1].date) {
        assert t[1..][i] == t[i + 1] && t[1..][i + 1] == t[i + 2];
      }
    }
  }

  /** Puts `x` before the first entry that is not newer than it, so that the
      sort keeps entries with equal dates in their original order. */
  function InsertByDate(x: FundTransaction, s: seq<FundTransaction>, dateKey: string -> int): (r: seq<FundTransaction>)
    ensures multiset(r) == multiset(s) + multiset{x}
    ensures |r| == |s| + 1
    ensures r[0] == x || (s != [] && r[0] == s[0])
  {
    if s == [] || dateKey(x.date) >= dateKey(s[0].date) then [x] + s
    else
      assert s == [s[0]] + s[1..];
      [s[0]] + InsertByDate(x, s[1..], dateKey)
  }

  /** Inserting into a newest-first list keeps it newest first. */
  lemma {:induction false} InsertByDateSorted(x: FundTransaction, s: seq<FundTransaction>, dateKey: string -> int)
    requires NewestFirst(s, dateKey)
    ensures NewestFirst(InsertByDate(x, s, dateKey), dateKey)
    decreases |s|
  {
    if s == [] || dateKey(x.date) >= dateKey(s[0].date) {
      ConsNewestFirst(x, s, dateKey);
    } else {
      ConsNewestFirst(s[0], s[1..], dateKey);
      InsertByDateSorted(x, s[1..], dateKey);
      ConsNewestFirst(s[0], InsertByDate(x, s[1..], dateKey), dateKey);
    }
  }

  /** `[...].sort((a, b) => date(b) - date(a))`: a stable newest-first sort. */
  function SortNewestFirst(s: seq<FundTransaction>, dateKey: string -> int): (r: seq<FundTransaction>)
    ensures multiset(r) == multiset(s)
    ensures |r| == |s|
  {
    if s == [] then []
    else
      assert s == [s[0]] + s[1..];
      InsertByDate(s[0], SortNewestFirst(s[1..], dateKey), dateKey)
  }

  /** The sort's result is newest first. */
  lemma {:induction false} SortNewestFirstSorted(s: seq<FundTransaction>, dateKey: string -> int)
    ensures NewestFirst(SortNewestFirst(s, dateKey), dateKey)
    decreases |s|
  {
    if s != [] {
      SortNewestFirstSorted(s[1..], dateKey);
      InsertByDateSorted(s[0], SortNewestFirst(s[1..], dateKey), dateKey);
    }
  }

  /** The list the fund page shows: stored ledger and derived entries together, newest first. */
  function CombinedLedger(l: seq<FundTransaction>, ds: seq<Donation>, dateKey: string -> int): (r: seq<FundTransaction>)
    ensures multiset(r) == multiset(l + DerivedIncome(ds))
    ensures |r| == |l| + |Filter(ds, IsApproved)|
    ensures NewestFirst(r, dateKey)
  {
    SortNewestFirstSorted(l + DerivedIncome(ds), dateKey);
    SortNewestFirst(l + DerivedIncome(ds), dateKey)
  }

  /** The totals are taken from the stored ledger and the donations, not from
      the combined list; summing the combined list's own entries gives the
      same income and expense, so each approved donation is counted once. */
  lemma CombinedAgreesWithTotals(l: seq<FundTransaction>, ds: seq<Donation>, dateKey: string -> int)
    ensures LedgerIncome(CombinedLedger(l, ds, dateKey)) == OrgTotals(l, ds).totalIncome
    ensures LedgerExpense(CombinedLedger(l, ds, dateKey)) == OrgTotals(l, ds).totalExpense
  {
    var c := CombinedLedger(l, ds, dateKey);
    var d := DerivedIncome(ds);
    SumFilter(c, IsIncome, TxAmount, IncomeContribution);
    SumFilter(c, IsExpense, TxAmount, ExpenseContribution);
    SumPermutation(c, l + d, IncomeContribution);
    SumPermutation(c, l + d, ExpenseContribution);
    SumConcat(l, d, IncomeContribution);
    SumConcat(l, d, ExpenseContribution);
    DerivedIncomeSums(ds);
    SumFilter(ds, IsApproved, DonationAmount, DonationContribution);
  }

  /** `hasAccessToLedger`: the detailed list is shown only to a signed-in user. */
  function LedgerView(user: Option<User>, combined: seq<FundTransaction>): (r: Option<seq<FundTransaction>>)
    ensures r.Some? <==> user.Some?
    ensures r.Some? ==> r.value == combined
  {
    if user.Some? then Some(combined) else None
  }
}
