/** The loan request page (pages/LoanRequest.tsx): a quote for borrowing
    `amount` EUR over `term` months at a flat 4.2 % interest. */
module LoanQuote {

  /** Flat interest, in percent of the amount. */
  const InterestRate: real := 4.2

  /** The terms offered, in months; the selected term is always one of them. */
  const Terms: seq<int> := [3, 6, 12]

  /** The term selected when the page opens. */
  const InitialTerm: int := 6

  /** The slider's bounds, in EUR. */
  const MinAmount: real := 100.0
  const MaxAmount: real := 5000.0

  /** `interestAmount`: 4.2 % of the amount. */
  function InterestAmount(amount: real): (i: real)
    ensures i * 1000.0 == amount * 42.0
    ensures amount >= 0.0 ==> 0.0 <= i <= amount
  {
    amount * (InterestRate / 100.0)
  }

  /** `totalRepay`: the amount and its interest, i.e. 1.042 times the amount. */
  function TotalRepay(amount: real): (t: real)
    ensures t * 1000.0 == amount * 1042.0
    ensures amount >= 0.0 ==> t >= amount
  {
    amount + InterestAmount(amount)
  }

  /** `monthlyInstallment`: the total spread evenly over the term. */
  function MonthlyInstallment(amount: real, term: int): (m: real)
    requires term > 0
    ensures m * (term as real) == TotalRepay(amount)
  {
    TotalRepay(amount) / (term as real)
  }

  /** The installment printed on the card of term `m`, computed afresh
      from the amount. */
  function CardInstallment(amount: real, m: int): real
    requires m > 0
  {
    (amount + amount * (InterestRate / 100.0)) / (m as real)
  }

  /** The card of the selected term shows the selected installment. */
  lemma CardMatchesSelection(amount: real, term: int)
    requires term > 0
    ensures CardInstallment(amount, term) == MonthlyInstallment(amount, term)
  {
  }

  /** A longer term gives a smaller installment for a positive amount. */
  lemma LongerTermSmallerInstallment(amount: real, m: int, n: int)
    requires amount > 0.0 && 0 < m < n
    ensures CardInstallment(amount, n) < CardInstallment(amount, m)
  {
    var total := amount + amount * (InterestRate / 100.0);
    assert total > 0.0;
    var a := total / (n as real);
    var b := total / (m as real);
    assert a * (n as real) == total && b * (m as real) == total;
  }

  /** `getTermLabel`. */
  function TermLabel(t: int): (name: string)
    ensures name == "Minimal Interest" <==> t == 3
    ensures name == "Balanced Term" <==> t == 6
    ensures name == "Lowest Installment" <==> t != 3 && t != 6
  {
    if t == 3 then "Minimal Interest"
    else if t == 6 then "Balanced Term"
    else "Lowest Installment"
  }

  /** The term starts as an offered one and is only ever set to an offered
      one, so it is positive and the installment is defined; the three cards
      carry three different labels. */
  lemma OfferedTerms()
    ensures InitialTerm in Terms
    ensures forall t :: t in Terms ==> t > 0
    ensures TermLabel(Terms[0]) != TermLabel(Terms[1])
    ensures TermLabel(Terms[1]) != TermLabel(Terms[2])
    ensures TermLabel(Terms[0]) != TermLabel(Terms[2])
  {
  }

  /** The filled part of the slider track, in percent. */
  function SliderProgress(amount: real): (p: real)
    ensures MinAmount <= amount <= MaxAmount ==> 0.0 <= p <= 100.0
    ensures p == 0.0 <==> amount == MinAmount
    ensures p == 100.0 <==> amount == MaxAmount
  {
    ((amount - 100.0) / (5000.0 - 100.0)) * 100.0
  }

  /** A larger amount fills more of the track. */
  lemma SliderMonotone(a: real, b: real)
    requires a < b
    ensures SliderProgress(a) < SliderProgress(b)
  {
  }
}
