/** The lending ledger of the Lend page (pages/Lend.tsx): loans in EUR or
    PKR, repayments in either currency, each carrying the EUR->PKR rate of
    its own day, and the status a repayment moves a loan to. */
module Lending {
  import opened Types
  import opened Lists
  import Gregorian
  import Store

  /** The rate the page starts from before any fetch answers: 300 PKR per EUR. */
  const DefaultPkrRate: real := 300.0

  /** The page's rate after a fetch: the fetched `PKR` rate when the service
      returned one (a zero rate is falsy and ignored), else the previous rate. */
  function UpdatedRate(current: real, fetched: Option<real>): (r: real)
    ensures fetched.Some? && fetched.value != 0.0 ==> r == fetched.value
    ensures fetched.None? || fetched == Some(0.0) ==> r == current
    ensures r == current || fetched == Some(r)
    ensures current > 0.0 && (fetched.Some? ==> fetched.value >= 0.0) ==> r > 0.0
  {
    if fetched.Some? && fetched.value != 0.0 then fetched.value else current
  }

  /** The rate after a series of fetches answered in order, starting from
      `start`. */
  function RateAfter(start: real, fetches: seq<Option<real>>): real
    decreases |fetches|
  {
    if fetches == [] then start else RateAfter(UpdatedRate(start, fetches[0]), fetches[1..])
  }

  /** The rate service never answers with a negative rate. */
  predicate FetchesNonNegative(fetches: seq<Option<real>>) {
    forall i :: 0 <= i < |fetches| && fetches[i].Some? ==> fetches[i].value >= 0.0
  }

  /** A positive rate stays positive whatever non-negative rates are fetched. */
  lemma {:induction false} RateStaysPositive(start: real, fetches: seq<Option<real>>)
    requires start > 0.0 && FetchesNonNegative(fetches)
    ensures RateAfter(start, fetches) > 0.0
    decreases |fetches|
  {
    if fetches != [] {
      var next := UpdatedRate(start, fetches[0]);
      assert FetchesNonNegative(fetches[1..]) by {
        forall i | 0 <= i < |fetches[1..]| && fetches[1..][i].Some?
          ensures fetches[1..][i].value >= 0.0
        {
          assert fetches[1..][i] == fetches[i + 1];
        }
      }
      RateStaysPositive(next, fetches[1..]);
    }
  }

  // ----- Currency normalisation -----

  /** `amount` held in `from` expressed in `to`, where `rate` is the number
      of PKR per 1 EUR: the reference the repayment arithmetic follows. */
  function Convert(amount: real, from: CurrencyType, to: CurrencyType, rate: real): real
    requires rate > 0.0
  {
    var inEur := if from == EUR then amount else amount / rate;
    if to == EUR then inEur else inEur * rate
  }

  /** The rate the dashboard and the loan request start from before their
      own fetch answers; a fetched rate replaces it by `UpdatedRate`. */
  const DisplayPkrRate: real := 302.45

  /** Every page starts from a positive rate, so the rate it divides or
      multiplies by is positive however its fetches answer. */
  lemma InitialRatesPositive(fetches: seq<Option<real>>)
    requires FetchesNonNegative(fetches)
    ensures RateAfter(DefaultPkrRate, fetches) > 0.0
    ensures RateAfter(DisplayPkrRate, fetches) > 0.0
  {
    RateStaysPositive(DefaultPkrRate, fetches);
    RateStaysPositive(DisplayPkrRate, fetches);
  }

  /** The "≈ PKR" figures of the dashboard and the loan request: a EUR
      amount times the current rate. */
  function PkrEquivalent(eur: real, rate: real): (r: real)
    ensures rate > 0.0 ==> r == Convert(eur, EUR, PKR, rate)
    ensures eur >= 0.0 && rate >= 0.0 ==> r >= 0.0
  {
    eur * rate
  }

  /** Converting there and back with one rate gives the amount back. */
  lemma ConvertRoundTrip(amount: real, from: CurrencyType, to: CurrencyType, rate: real)
    requires rate > 0.0
    ensures Convert(Convert(amount, from, to, rate), to, from, rate) == amount
  {
    if from != to {
      if from == EUR {
        assert amount * rate / rate == amount;
      } else {
        assert amount / rate * rate == amount;
      }
    } else if from == PKR {
      assert amount / rate * rate == amount;
    }
  }

  predicate RatePositive(r: Repayment) {
    r.exchangeRateAtRepayment > 0.0
  }

  predicate RatesPositive(rs: seq<Repayment>) {
    forall i :: 0 <= i < |rs| ==> RatePositive(rs[i])
  }

  /** What one repayment adds to a loan held in `principal`: its own amount
      in the same currency; otherwise divided (EUR loan) or multiplied (PKR
      loan) by the rate the repayment captured. */
  function Contribution(principal: CurrencyType, r: Repayment): (c: real)
    requires RatePositive(r)
    ensures r.currency == principal ==> c == r.amount
    ensures r.amount >= 0.0 ==> c >= 0.0
  {
    if r.currency == principal then r.amount
    else if principal == EUR then r.amount / r.exchangeRateAtRepayment
    else r.amount * r.exchangeRateAtRepayment
  }

  /** The contribution is the repayment converted at its own captured rate. */
  lemma ContributionIsConversion(principal: CurrencyType, r: Repayment)
    requires RatePositive(r)
    ensures Contribution(principal, r)
         == Convert(r.amount, r.currency, principal, r.exchangeRateAtRepayment)
  {
    if r.currency == principal && principal == PKR {
      assert r.amount / r.exchangeRateAtRepayment * r.exchangeRateAtRepayment == r.amount;
    }
  }

  /** The `reduce` over the repayment list, starting from 0. */
  function SumContributions(principal: CurrencyType, rs: seq<Repayment>): real
    requires RatesPositive(rs)
  {
    if rs == [] then 0.0 else Contribution(principal, rs[0]) + SumContributions(principal, rs[1..])
  }

  /** `calculateTotalRepaid`: everything repaid, in the loan's own currency. */
  function TotalRepaid(rec: LendRecord): real
    requires RatesPositive(rec.repayments)
  {
    SumContributions(rec.currency, rec.repayments)
  }

  /** A repayment appended at the end adds exactly its own contribution. */
  lemma {:induction false} TotalAppend(principal: CurrencyType, rs: seq<Repayment>, r: Repayment)
    requires RatesPositive(rs) && RatePositive(r)
    ensures RatesPositive(rs + [r])
    ensures SumContributions(principal, rs + [r]) == SumContributions(principal, rs) + Contribution(principal, r)
  {
    if rs == [] {
      assert rs + [r] == [r];
    } else {
      assert (rs + [r])[1..] == rs[1..] + [r];
      TotalAppend(principal, rs[1..], r);
    }
  }

  predicate NonNegative(rs: seq<Repayment>) {
    forall i :: 0 <= i < |rs| ==> rs[i].amount >= 0.0
  }

  lemma {:induction false} TotalNonNegative(principal: CurrencyType, rs: seq<Repayment>)
    requires RatesPositive(rs) && NonNegative(rs)
    ensures SumContributions(principal, rs) >= 0.0
  {
    if rs != [] {
      TotalNonNegative(principal, rs[1..]);
    }
  }

  /** The total reads only the repayments and the loan's currency: neither
      the rate captured at lending nor any later rate enters it. */
  lemma TotalIgnoresLendingRate(rec: LendRecord, rate: real)
    requires RatesPositive(rec.repayments)
    ensures TotalRepaid(rec.(exchangeRateAtLending := rate)) == TotalRepaid(rec)
  {
  }

  // ----- Status -----

  /** The status set after a repayment: `returned` once the total reaches the
      principal, `partial` while it is positive, otherwise left as it was. */
  function ResolveStatus(previous: LendStatus, total: real, principal: real): (s: LendStatus)
    ensures total >= principal ==> s == Returned
    ensures 0.0 < total < principal ==> s == Partial
    ensures total <= 0.0 && total < principal ==> s == previous
    ensures s == Pending ==> previous == Pending
  {
    if total >= principal then Returned
    else if total > 0.0 then Partial
    else previous
  }

  /** The record `handleAddRepayment` hands on: the repayment appended, the
      status resolved against the new total, every other field kept. */
  function Repaid(rec: LendRecord, rep: Repayment): (r: LendRecord)
    requires RatesPositive(rec.repayments) && RatePositive(rep)
    ensures RatesPositive(r.repayments)
    ensures r.repayments == rec.repayments + [rep]
    ensures r.(status := rec.status, repayments := rec.repayments) == rec
    ensures r.status == ResolveStatus(rec.status, TotalRepaid(r), rec.amount)
  {
    TotalAppend(rec.currency, rec.repayments, rep);
    var updated := rec.(repayments := rec.repayments + [rep]);
    updated.(status := ResolveStatus(rec.status, TotalRepaid(updated), rec.amount))
  }

  /** The predicate `lendRecords.find` is given. */
  function IdIs(id: string): LendRecord -> bool {
    (r: LendRecord) => r.id == id
  }

  /** `handleAddRepayment`: find the loan by the id of the open repayment
      form; an unknown id does nothing; otherwise copy the record, append the
      repayment and set the status in place on the copy. */
  method HandleAddRepayment(records: seq<LendRecord>, modalId: string, rep: Repayment)
    returns (update: Option<LendRecord>)
    requires forall i :: 0 <= i < |records| ==> RatesPositive(records[i].repayments)
    requires RatePositive(rep)
    ensures update.None? <==> forall i :: 0 <= i < |records| ==> records[i].id != modalId
    ensures update.Some? ==>
      (var i := FirstIndex(records, IdIs(modalId));
       i < |records| && update.value == Repaid(records[i], rep))
  {
    var i := FirstIndex(records, IdIs(modalId));
    if i == |records| {
      return None;
    }
    var record := records[i];
    TotalAppend(record.currency, record.repayments, rep);
    var updated := record.(repayments := record.repayments + [rep]);
    var total := TotalRepaid(updated);
    if total >= record.amount {
      updated := updated.(status := Returned);
    } else if total > 0.0 {
      updated := updated.(status := Partial);
    }
    update := Some(updated);
  }

  /** `handleSubmit` of the new-loan form: a fresh id, the form's fields, the
      rate on screen at that moment, status `pending` and no repayments. */
  function NewLoan(id: string, personName: string, amount: real, currency: CurrencyType,
                   currentRate: real, dateLent: Date, dueDate: Date, description: string): (rec: LendRecord)
    ensures rec.id == id && rec.amount == amount && rec.currency == currency
    ensures rec.status == Pending && rec.repayments == []
    ensures rec.exchangeRateAtLending == currentRate
    ensures rec.personName == personName && rec.description == description
    ensures rec.dateLent == dateLent && rec.dueDate == dueDate
  {
    LendRecord(id, personName, amount, currency, currentRate, dateLent, dueDate,
               Pending, description, [])
  }

  /** `remaining`: what is still owed, never below zero. */
  function Remaining(rec: LendRecord): (r: real)
    requires RatesPositive(rec.repayments)
    ensures TotalRepaid(rec) < rec.amount ==> r == rec.amount - TotalRepaid(rec)
    ensures r >= 0.0 && r >= rec.amount - TotalRepaid(rec)
    ensures r == 0.0 <==> TotalRepaid(rec) >= rec.amount
  {
    var left := rec.amount - TotalRepaid(rec);
    if left > 0.0 then left else 0.0
  }

  /** `isOverdue(dueDate)` at day `today`: the due day is strictly before
      today (the same day is not overdue). */
  predicate PastDue(due: Date, today: Date) {
    Gregorian.EpochDay(due.year, due.month, due.day)
      < Gregorian.EpochDay(today.year, today.month, today.day)
  }

  /** `overdue`: not yet returned and past its due day. */
  function Overdue(rec: LendRecord, today: Date): (b: bool)
    ensures b <==> rec.status != Returned && PastDue(rec.dueDate, today)
  {
    rec.status != Returned && PastDue(rec.dueDate, today)
  }

  // ----- The status invariant -----

  /** The status agrees with the total: returned once the principal is
      reached, partial while something but not all is repaid, pending while
      nothing is. */
  predicate StatusConsistent(rec: LendRecord)
    requires RatesPositive(rec.repayments)
  {
    var total := TotalRepaid(rec);
    && (rec.status == Returned <==> total >= rec.amount)
    && (rec.status == Partial <==> 0.0 < total < rec.amount)
    && (rec.status == Pending <==> total <= 0.0 && total < rec.amount)
  }

  /** A fresh loan of a positive principal is consistent. */
  lemma NewLoanConsistent(id: string, personName: string, amount: real, currency: CurrencyType,
                          currentRate: real, dateLent: Date, dueDate: Date, description: string)
    requires amount > 0.0
    ensures StatusConsistent(NewLoan(id, personName, amount, currency, currentRate, dateLent, dueDate, description))
    ensures Remaining(NewLoan(id, personName, amount, currency, currentRate, dateLent, dueDate, description)) == amount
  {
  }

  /** Every repayment of a non-negative amount keeps the status consistent. */
  lemma RepaidConsistent(rec: LendRecord, rep: Repayment)
    requires RatesPositive(rec.repayments) && NonNegative(rec.repayments)
    requires RatePositive(rep) && rep.amount >= 0.0
    requires rec.amount > 0.0
    requires StatusConsistent(rec)
    ensures StatusConsistent(Repaid(rec, rep))
  {
    TotalAppend(rec.currency, rec.repayments, rep);
    TotalNonNegative(rec.currency, rec.repayments);
  }

  /** The loan after a series of repayments, applied in order. */
  function RepaidAll(rec: LendRecord, reps: seq<Repayment>): (r: LendRecord)
    requires RatesPositive(rec.repayments) && RatesPositive(reps)
    ensures RatesPositive(r.repayments)
    ensures r.repayments == rec.repayments + reps
    decreases |reps|
  {
    if reps == [] then rec
    else
      var r := RepaidAll(Repaid(rec, reps[0]), reps[1..]);
      assert rec.repayments + reps == rec.repayments + [reps[0]] + reps[1..];
      r
  }

  /** No sequence of non-negative repayments leaves a new loan with a
      status that disagrees with its total. */
  lemma {:induction false} HistoryConsistent(rec: LendRecord, reps: seq<Repayment>)
    requires RatesPositive(rec.repayments) && NonNegative(rec.repayments)
    requires RatesPositive(reps) && NonNegative(reps)
    requires rec.amount > 0.0
    requires StatusConsistent(rec)
    ensures StatusConsistent(RepaidAll(rec, reps))
    decreases |reps|
  {
    if reps != [] {
      RepaidConsistent(rec, reps[0]);
      var next := Repaid(rec, reps[0]);
      assert NonNegative(next.repayments);
      HistoryConsistent(next, reps[1..]);
    }
  }

  // ----- The ledger held by the store -----

  /** Every loan of the ledger has a positive principal, repayments of
      non-negative amounts at positive rates, and a consistent status. */
  ghost predicate LedgerConsistent(records: seq<LendRecord>) {
    forall i :: 0 <= i < |records| ==>
      && RatesPositive(records[i].repayments) && NonNegative(records[i].repayments)
      && records[i].amount > 0.0 && StatusConsistent(records[i])
  }

  /** Replacing loans by one consistent loan keeps the ledger consistent. */
  lemma ReplaceKeepsConsistent(records: seq<LendRecord>, updated: LendRecord)
    requires LedgerConsistent(records)
    requires LedgerConsistent([updated])
    ensures LedgerConsistent(Store.ReplaceById(records, Store.RecordId, updated))
  {
    var r := Store.ReplaceById(records, Store.RecordId, updated);
    forall i | 0 <= i < |r|
      ensures RatesPositive(r[i].repayments) && NonNegative(r[i].repayments)
      ensures r[i].amount > 0.0 && StatusConsistent(r[i])
    {
      if records[i].id == updated.id {
        assert r[i] == [updated][0];
      }
    }
  }

  /** Submitting the new-loan form: the loan is appended to the store. */
  method SubmitLoan(store: Store.AppStore, id: string, personName: string, amount: real,
                    currency: CurrencyType, currentRate: real, dateLent: Date, dueDate: Date,
                    description: string)
    modifies store
    ensures store.lendRecords == old(store.lendRecords)
      + [NewLoan(id, personName, amount, currency, currentRate, dateLent, dueDate, description)]
    ensures store.theme == old(store.theme) && store.profile == old(store.profile)
    ensures store.transactions == old(store.transactions)
    ensures store.notifications == old(store.notifications)
  {
    store.AddLendRecord(NewLoan(id, personName, amount, currency, currentRate, dateLent, dueDate, description));
  }

  /** Submitting the repayment form of the loan `modalId`: the repayment
      captures the page's current rate, `HandleAddRepayment` builds the new
      record and the store's `updateLendRecord` puts it in place. An unknown
      id leaves the store as it was, and a consistent ledger stays consistent. */
  method SubmitRepayment(store: Store.AppStore, modalId: string, repId: string, amount: real,
                         currency: CurrencyType, currentRate: real, date: Date)
    requires forall i :: 0 <= i < |store.lendRecords| ==> RatesPositive(store.lendRecords[i].repayments)
    requires currentRate > 0.0
    modifies store
    ensures (forall i :: 0 <= i < |old(store.lendRecords)| ==> old(store.lendRecords)[i].id != modalId) ==>
      store.lendRecords == old(store.lendRecords)
    ensures (exists i :: 0 <= i < |old(store.lendRecords)| && old(store.lendRecords)[i].id == modalId) ==>
      (var i := FirstIndex(old(store.lendRecords), IdIs(modalId));
       i < |old(store.lendRecords)|
       && store.lendRecords == Store.ReplaceById(old(store.lendRecords), Store.RecordId,
            Repaid(old(store.lendRecords)[i], Repayment(repId, amount, currency, currentRate, date))))
    ensures LedgerConsistent(old(store.lendRecords)) && amount >= 0.0 ==> LedgerConsistent(store.lendRecords)
    ensures store.theme == old(store.theme) && store.profile == old(store.profile)
    ensures store.transactions == old(store.transactions)
    ensures store.notifications == old(store.notifications)
  {
    var rep := Repayment(repId, amount, currency, currentRate, date);
    var update := HandleAddRepayment(store.lendRecords, modalId, rep);
    if update.Some? {
      var i := FirstIndex(store.lendRecords, IdIs(modalId));
      if LedgerConsistent(store.lendRecords) && amount >= 0.0 {
        RepaidConsistent(store.lendRecords[i], rep);
        ReplaceKeepsConsistent(store.lendRecords, update.value);
      }
      store.UpdateLendRecord(update.value);
    }
  }

  // ----- Worked examples -----

  /** 150 EUR lent; 50 EUR repaid: partial, 100 left. */
  lemma ExamplePartialEur()
    ensures var rec := Repaid(NewLoan("l1", "Ali Khan", 150.0, EUR, 305.5, Date(2023, 10, 20), Date(2023, 11, 5), ""),
                              Repayment("r1", 50.0, EUR, 305.5, Date(2023, 10, 25)));
            TotalRepaid(rec) == 50.0 && rec.status == Partial && Remaining(rec) == 100.0
  {
    var loan := NewLoan("l1", "Ali Khan", 150.0, EUR, 305.5, Date(2023, 10, 20), Date(2023, 11, 5), "");
    var rep := Repayment("r1", 50.0, EUR, 305.5, Date(2023, 10, 25));
    TotalAppend(EUR, loan.repayments, rep);
  }

  /** 150 EUR lent at 305.5 PKR/EUR. 45825 PKR at that rate repays it; 45750
      PKR is 149.75... EUR and leaves the loan partial. */
  lemma ExamplePkrRepayment()
    ensures var loan := NewLoan("l1", "Ali Khan", 150.0, EUR, 305.5, Date(2023, 10, 20), Date(2023, 11, 5), "");
            (Repaid(loan, Repayment("r1", 45825.0, PKR, 305.5, Date(2023, 10, 20))).status == Returned
             && Repaid(loan, Repayment("r2", 45750.0, PKR, 305.5, Date(2023, 10, 20))).status == Partial)
  {
    var loan := NewLoan("l1", "Ali Khan", 150.0, EUR, 305.5, Date(2023, 10, 20), Date(2023, 11, 5), "");
    var full := Repayment("r1", 45825.0, PKR, 305.5, Date(2023, 10, 20));
    var short := Repayment("r2", 45750.0, PKR, 305.5, Date(2023, 10, 20));
    TotalAppend(EUR, loan.repayments, full);
    TotalAppend(EUR, loan.repayments, short);
    assert Contribution(EUR, full) == 150.0;
    assert Contribution(EUR, short) < 150.0;
  }
}
