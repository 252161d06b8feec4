/** Record types of the organisation's bookkeeping store (src/types.ts).

    Every closed string union of the source becomes a datatype, so a user's
    status, a donation's method or a ledger entry's type can take no value
    outside the ones the source lists. Optional fields (`x?: T`) become
    `Option<T>`. */
module Types {

  datatype Option<+T> = None | Some(value: T) {
    function GetOr(default: T): T {
      match this
      case Some(v) => v
      case None => default
    }
  }

  datatype Role = Admin | Member

  /** The lifecycle gate shared by members and donations. */
  datatype Status = Pending | Approved | Rejected

  datatype PayMethod = Bkash | Nagad | Rocket | Cash | Bank

  datatype DonationKind = Subscription | General | Manual

  datatype TxKind = Income | Expense

  datatype Priority = Normal | High

  /** A calendar month as the pages read it from a JS `Date`:
      `getFullYear()` and the zero-based `getMonth()`. */
  datatype YearMonth = YearMonth(year: int, month: int)

  datatype Permissions = Permissions(
    viewFund: bool,
    postActivities: bool,
    postNotices: bool,
    manageMembers: bool)

  /** An admin-to-member message. */
  datatype Message = Message(id: string, text: string, date: string, sender: string)

  datatype User = User(
    id: string,
    name: string,
    email: string,
    phone: Option<string>,
    password: Option<string>,
    role: Role,
    position: Option<string>,
    approved: bool,
    status: Status,
    monthlyAmount: Option<int>,
    manualDue: Option<int>,
    manualTotalPaid: Option<int>,
    paidMonths: Option<seq<string>>,
    joiningDate: string,
    createdAt: Option<YearMonth>,
    token: Option<string>,
    address: Option<string>,
    bloodGroup: Option<string>,
    permissions: Option<Permissions>,
    messages: Option<seq<Message>>)

  datatype Donation = Donation(
    id: string,
    userId: string,
    userName: Option<string>,
    amount: int,
    payMethod: PayMethod,
    trxId: string,
    screenshot: Option<string>,
    status: Status,
    kind: DonationKind,
    paymentMonth: Option<string>,
    createdAt: string)

  /** A ledger entry (`FundTransaction`). */
  datatype FundTransaction = FundTransaction(
    id: string,
    kind: TxKind,
    category: string,
    amount: int,
    description: string,
    date: string,
    referenceId: Option<string>)

  datatype Activity = Activity(
    id: string,
    title: string,
    description: string,
    image: Option<string>,
    date: string,
    location: Option<string>)

  datatype Notice = Notice(
    id: string,
    title: string,
    content: string,
    date: string,
    priority: Priority)

  // Field selectors as function values, for the generic list operations.
  function UserId(u: User): string { u.id }
  function UserEmail(u: User): string { u.email }
  function DonationId(d: Donation): string { d.id }
  function TxId(t: FundTransaction): string { t.id }
  function NoticeId(n: Notice): string { n.id }
  function ActivityId(a: Activity): string { a.id }
}
