/** The records the app keeps (types.ts). Amounts and rates are exact reals,
    ids are opaque strings and dates are already-parsed calendar triples. */
module Types {

  datatype Option<T> = None | Some(value: T)

  /** A date as read back from a `YYYY-MM-DD` string: full year, month
      numbered 0..11 as `Date.getMonth` does, and day of the month. */
  datatype Date = Date(year: int, month: int, day: int)

  datatype TxKind = Expense | Income

  datatype Transaction = Transaction(
    id: string,
    amount: real,
    category: string,
    date: Date,
    kind: TxKind,
    description: string)

  datatype LendStatus = Pending | Returned | Partial

  datatype CurrencyType = EUR | PKR

  /** A repayment remembers the EUR->PKR rate (PKR per 1 EUR) of its own day. */
  datatype Repayment = Repayment(
    id: string,
    amount: real,
    currency: CurrencyType,
    exchangeRateAtRepayment: real,
    date: Date)

  datatype LendRecord = LendRecord(
    id: string,
    personName: string,
    amount: real,                // the principal, in `currency`
    currency: CurrencyType,
    exchangeRateAtLending: real, // PKR per 1 EUR on the day of the loan
    dateLent: Date,
    dueDate: Date,
    status: LendStatus,
    description: string,
    repayments: seq<Repayment>)

  datatype NotificationKind = Info | Alert | Success

  datatype Notification = Notification(
    id: string,
    title: string,
    message: string,
    date: Date,
    isRead: bool,
    kind: NotificationKind)

  datatype UserProfile = UserProfile(name: string, avatarSeed: string)
}
