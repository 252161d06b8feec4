/** The member payment form (src/pages/PaymentMethods.tsx): the amount the
    form starts with, and the donation record a submission creates. */
module Payment {
  import opened Types
  import Dues

  /** The form offers the three mobile wallets only. */
  predicate FormMethod(m: PayMethod) { m == Bkash || m == Nagad || m == Rocket }

  /** `prefill?.toString() || user.monthly_amount?.toString() || '500'`.
      A number's string is never empty, so a given prefill or monthly
      amount is kept even when it is 0; only absence falls through. */
  function InitialAmount(prefill: Option<int>, monthly: Option<int>): (r: int)
    ensures prefill.Some? ==> r == prefill.value
    ensures prefill.None? && monthly.Some? ==> r == monthly.value
    ensures prefill.None? && monthly.None? ==> r == Dues.DefaultMonthly
  {
    if prefill.Some? then prefill.value
    else if monthly.Some? then monthly.value
    else Dues.DefaultMonthly
  }

  /** The effect that runs when the navigation state changes: a given
      prefill replaces whatever the amount field holds. */
  function AmountAfterPrefill(current: int, prefill: Option<int>): (r: int)
    ensures prefill.Some? ==> r == prefill.value
    ensures prefill.None? ==> r == current
  {
    if prefill.Some? then prefill.value else current
  }

  /** The effect agrees with the initial amount, so the field shows the
      prefill whenever there is one. */
  lemma PrefillWins(prefill: Option<int>, monthly: Option<int>, typed: int)
    ensures AmountAfterPrefill(InitialAmount(prefill, monthly), prefill) == InitialAmount(prefill, monthly)
    ensures prefill.Some? ==> AmountAfterPrefill(typed, prefill) == InitialAmount(prefill, monthly)
  {
  }

  /** Unlike the dashboard, the form keeps a monthly amount of 0. */
  lemma ZeroMonthlyDiffers()
    ensures InitialAmount(None, Some(0)) == 0 && Dues.EffectiveMonthly(Some(0)) == 500
  {
  }

  /** The donation `handleSubmitDonation` builds: pending, a subscription,
      and made by the submitting member. */
  function NewDonation(user: User, amount: int, m: PayMethod, trxId: string,
                       screenshot: Option<string>, stamp: string, today: string): (d: Donation)
    ensures d.status == Pending && d.kind == Subscription
    ensures d.userId == user.id && d.userName == Some(user.name)
    ensures d.amount == amount && d.payMethod == m && d.trxId == trxId
    ensures d.id == "user-don-" + stamp
  {
    Donation("user-don-" + stamp, user.id, Some(user.name), amount, m, trxId, screenshot,
             Pending, Subscription, None, today)
  }
}
