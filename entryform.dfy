/** The manual entry form of the transactions page (pages/Transactions.tsx)
    and the list it shows. */
module EntryForm {
  import opened Types
  import opened Lists
  import opened Aggregation
  import opened Store

  /** The form's fields; `amount` is the raw text of the number input. */
  datatype FormData = FormData(amount: string, category: string, kind: TxKind, description: string, date: Date)

  /** The form as it is reset after a submit: empty texts, an expense, today. */
  function Blank(today: Date): (f: FormData)
    ensures f.amount == "" && f.category == "" && f.description == ""
    ensures f.kind == Expense && f.date == today
  {
    FormData("", "", Expense, "", today)
  }

  /** The submit button is refused while the amount or the category is empty. */
  predicate Complete(f: FormData) {
    f.amount != "" && f.category != ""
  }

  /** The transaction a complete form produces. */
  function Entry(f: FormData, id: string, parsedAmount: real): (t: Transaction)
    ensures t.id == id && t.amount == parsedAmount
    ensures t.category == f.category && t.kind == f.kind
    ensures t.description == f.description && t.date == f.date
  {
    Transaction(id, parsedAmount, f.category, f.date, f.kind, f.description)
  }

  class EntryFormView {
    var formData: FormData
    var showAdd: bool

    /** Opening the page: a `type` given in the address preselects that kind
        and opens the form; otherwise an empty expense form stays closed. */
    constructor (urlType: Option<TxKind>, today: Date)
      ensures formData == Blank(today).(kind := if urlType.Some? then urlType.value else Expense)
      ensures showAdd == urlType.Some?
    {
      formData := FormData("", "", if urlType.Some? then urlType.value else Expense, "", today);
      showAdd := urlType.Some?;
    }

    /** `handleSubmit`: an incomplete form changes nothing; a complete one
        adds exactly one transaction to the store, then resets and closes
        the form. `id` and `parsedAmount` are the random id and the
        `parseFloat` of the amount text, given from outside. */
    method Submit(store: AppStore, id: string, parsedAmount: real, today: Date)
      modifies this, store
      ensures !Complete(old(formData)) ==>
        formData == old(formData) && showAdd == old(showAdd)
        && store.transactions == old(store.transactions)
      ensures Complete(old(formData)) ==>
        store.transactions == old(store.transactions) + [Entry(old(formData), id, parsedAmount)]
        && formData == Blank(today) && !showAdd
      ensures store.theme == old(store.theme) && store.profile == old(store.profile)
      ensures store.lendRecords == old(store.lendRecords)
      ensures store.notifications == old(store.notifications)
    {
      if !Complete(formData) {
        return;
      }
      store.AddTransaction(Entry(formData, id, parsedAmount));
      formData := Blank(today);
      showAdd := false;
    }
  }

  /** The list on the page: a sorted copy of the stored transactions, newest
      first; the store itself is left in its order. */
  method ListView(store: AppStore) returns (shown: seq<Transaction>)
    ensures shown == NewestFirst(store.transactions)
    ensures multiset(shown) == multiset(store.transactions)
    ensures forall i, j :: 0 <= i < j < |shown| ==> DateKey(shown[i]) >= DateKey(shown[j])
    ensures forall k :: Filter(shown, KeyIs(DateKey, k)) == Filter(store.transactions, KeyIs(DateKey, k))
  {
    var copy := store.transactions;
    shown := NewestFirst(copy);
  }
}
