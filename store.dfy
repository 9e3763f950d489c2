/** The application state held by the root component (App.tsx): the theme,
    the profile and three lists, each replaced wholesale by a setter with an
    appended, filtered or mapped copy. */
module Store {
  import opened Types
  import opened Lists

  datatype Theme = Light | Dark

  /** `toggleTheme`'s updater. */
  function Flip(t: Theme): (r: Theme)
    ensures r != t
  {
    if t == Light then Dark else Light
  }

  /** Toggling twice restores the theme. */
  lemma FlipTwice(t: Theme)
    ensures Flip(Flip(t)) == t
  {
  }

  /** The theme at start-up: the saved value when it is exactly "light" or
      "dark", otherwise the system's colour-scheme preference. */
  function InitialTheme(saved: Option<string>, prefersDark: bool): (t: Theme)
    ensures saved == Some("light") ==> t == Light
    ensures saved == Some("dark") ==> t == Dark
    ensures saved != Some("light") && saved != Some("dark") ==> (t == Dark <==> prefersDark)
  {
    if saved == Some("light") then Light
    else if saved == Some("dark") then Dark
    else if prefersDark then Dark
    else Light
  }

  // ----- Lists keyed by id -----

  function IdOtherThan<T>(idOf: T -> string, id: string): T -> bool {
    x => idOf(x) != id
  }

  /** `filter(x => x.id !== id)`: every element with that id goes, the rest
      stay. */
  function Without<T>(xs: seq<T>, idOf: T -> string, id: string): (r: seq<T>)
    ensures forall i :: 0 <= i < |r| ==> r[i] in xs && idOf(r[i]) != id
    ensures forall i :: 0 <= i < |xs| && idOf(xs[i]) != id ==> xs[i] in r
  {
    Filter(xs, IdOtherThan(idOf, id))
  }

  /** Deleting works piecewise, so the survivors keep their relative order. */
  lemma WithoutAppend<T>(a: seq<T>, b: seq<T>, idOf: T -> string, id: string)
    ensures Without(a + b, idOf, id) == Without(a, idOf, id) + Without(b, idOf, id)
  {
    FilterAppend(a, b, IdOtherThan(idOf, id));
  }

  /** Deleting an id nobody has leaves the list as it was. */
  lemma WithoutAbsent<T>(xs: seq<T>, idOf: T -> string, id: string)
    requires forall i :: 0 <= i < |xs| ==> idOf(xs[i]) != id
    ensures Without(xs, idOf, id) == xs
  {
    FilterAll(xs, IdOtherThan(idOf, id));
  }

  /** `map(x => x.id === updated.id ? updated : x)`. */
  function ReplaceById<T>(xs: seq<T>, idOf: T -> string, updated: T): (r: seq<T>)
    ensures |r| == |xs|
    ensures forall i :: 0 <= i < |xs| && idOf(xs[i]) != idOf(updated) ==> r[i] == xs[i]
    ensures forall i :: 0 <= i < |xs| && idOf(xs[i]) == idOf(updated) ==> r[i] == updated
  {
    if xs == [] then []
    else [if idOf(xs[0]) == idOf(updated) then updated else xs[0]] + ReplaceById(xs[1..], idOf, updated)
  }

  /** Replacing keeps every position's id, so the list's ids never change. */
  lemma ReplaceKeepsIds<T>(xs: seq<T>, idOf: T -> string, updated: T, i: nat)
    requires i < |xs|
    ensures idOf(ReplaceById(xs, idOf, updated)[i]) == idOf(xs[i])
  {
  }

  /** Replacing an id nobody has changes nothing. */
  lemma {:induction false} ReplaceAbsent<T>(xs: seq<T>, idOf: T -> string, updated: T)
    requires forall i :: 0 <= i < |xs| ==> idOf(xs[i]) != idOf(updated)
    ensures ReplaceById(xs, idOf, updated) == xs
  {
    if xs != [] {
      ReplaceAbsent(xs[1..], idOf, updated);
    }
  }

  /** Replacing twice with the same record is replacing once. */
  lemma {:induction false} ReplaceIdempotent<T>(xs: seq<T>, idOf: T -> string, updated: T)
    ensures ReplaceById(ReplaceById(xs, idOf, updated), idOf, updated) == ReplaceById(xs, idOf, updated)
  {
    if xs != [] {
      ReplaceIdempotent(xs[1..], idOf, updated);
    }
  }

  function TransactionId(t: Transaction): string { t.id }

  function RecordId(r: LendRecord): string { r.id }

  // ----- Notifications -----

  function IsUnread(n: Notification): bool { !n.isRead }

  /** `notifications.filter(n => !n.isRead).length`. */
  function UnreadCount(ns: seq<Notification>): (c: nat)
    ensures c <= |ns|
    ensures c == 0 <==> forall i :: 0 <= i < |ns| ==> ns[i].isRead
  {
    var unread := Filter(ns, IsUnread);
    assert unread != [] ==> unread[0] in ns;
    |unread|
  }

  /** The isRead column of the list. */
  function ReadFlags(ns: seq<Notification>): (r: seq<bool>)
    ensures |r| == |ns|
  {
    seq(|ns|, i requires 0 <= i < |ns| => ns[i].isRead)
  }

  /** The unread count is how often `false` occurs in the isRead column. */
  lemma {:induction false} UnreadCountIsMultiplicity(ns: seq<Notification>)
    ensures UnreadCount(ns) == multiset(ReadFlags(ns))[false]
  {
    if ns != [] {
      UnreadCountIsMultiplicity(ns[1..]);
      assert ReadFlags(ns) == [ns[0].isRead] + ReadFlags(ns[1..]);
    }
  }

  /** `markAsRead(id)`'s updater: the notifications with that id become read. */
  function MarkRead(ns: seq<Notification>, id: string): (r: seq<Notification>)
    ensures |r| == |ns|
    ensures forall i :: 0 <= i < |ns| && ns[i].id == id ==> r[i] == ns[i].(isRead := true)
    ensures forall i :: 0 <= i < |ns| && ns[i].id != id ==> r[i] == ns[i]
  {
    if ns == [] then []
    else [if ns[0].id == id then ns[0].(isRead := true) else ns[0]] + MarkRead(ns[1..], id)
  }

  lemma {:induction false} MarkReadIdempotent(ns: seq<Notification>, id: string)
    ensures MarkRead(MarkRead(ns, id), id) == MarkRead(ns, id)
  {
    if ns != [] {
      MarkReadIdempotent(ns[1..], id);
    }
  }

  function IsUnreadWithId(id: string): Notification -> bool {
    (n: Notification) => !n.isRead && n.id == id
  }

  /** Marking one id read removes exactly its unread notifications from the count. */
  lemma {:induction false} MarkReadCount(ns: seq<Notification>, id: string)
    ensures UnreadCount(MarkRead(ns, id)) == UnreadCount(ns) - |Filter(ns, IsUnreadWithId(id))|
    ensures UnreadCount(MarkRead(ns, id)) <= UnreadCount(ns)
  {
    if ns != [] {
      MarkReadCount(ns[1..], id);
    }
  }

  /** `markAllAsRead`'s updater. */
  function MarkAllRead(ns: seq<Notification>): (r: seq<Notification>)
    ensures |r| == |ns|
    ensures forall i :: 0 <= i < |ns| ==> r[i] == ns[i].(isRead := true)
  {
    if ns == [] then [] else [ns[0].(isRead := true)] + MarkAllRead(ns[1..])
  }

  lemma MarkAllReadClears(ns: seq<Notification>)
    ensures UnreadCount(MarkAllRead(ns)) == 0
  {
  }

  lemma {:induction false} MarkAllReadIdempotent(ns: seq<Notification>)
    ensures MarkAllRead(MarkAllRead(ns)) == MarkAllRead(ns)
  {
    if ns != [] {
      MarkAllReadIdempotent(ns[1..]);
    }
  }

  // ----- Seed data used when nothing was saved -----

  const InitialTransactions: seq<Transaction> := [
    Transaction("1", 5000.0, "Salary", Date(2023, 10, 1), Income, "Monthly pay"),
    Transaction("2", 1200.0, "Rent", Date(2023, 10, 2), Expense, "November Rent")
  ]

  const InitialLendRecords: seq<LendRecord> := [
    LendRecord("l1", "Ali Khan", 150.0, EUR, 305.5, Date(2023, 10, 20), Date(2023, 11, 5),
               Pending, "Laptop repair loan", [])
  ]

  const InitialProfile: UserProfile := UserProfile("Yasir khan", "Aneka")

  const InitialNotifications: seq<Notification> := [
    Notification("1", "Monthly Report", "Your financial summary for February is ready.",
                 Date(2026, 1, 1), false, Info),
    Notification("2", "Due Date Alert", "Ali Khan's loan payment is due in 2 days.",
                 Date(2026, 1, 15), false, Alert),
    Notification("3", "System Updated", "New AI features have been integrated into the dashboard.",
                 Date(2026, 1, 10), true, Success)
  ]

  /** The state held by the root component. Each method is one of its
      callbacks and replaces one field with a new value. */
  class AppStore {
    var theme: Theme
    var profile: UserProfile
    var transactions: seq<Transaction>
    var lendRecords: seq<LendRecord>
    var notifications: seq<Notification>

    /** Start-up: what was saved (already parsed) or the seed data. */
    constructor (savedTheme: Option<string>, prefersDark: bool,
                 savedProfile: Option<UserProfile>,
                 savedTransactions: Option<seq<Transaction>>,
                 savedLendRecords: Option<seq<LendRecord>>,
                 savedNotifications: Option<seq<Notification>>)
      ensures theme == InitialTheme(savedTheme, prefersDark)
      ensures profile == (if savedProfile.Some? then savedProfile.value else InitialProfile)
      ensures transactions == (if savedTransactions.Some? then savedTransactions.value else InitialTransactions)
      ensures lendRecords == (if savedLendRecords.Some? then savedLendRecords.value else InitialLendRecords)
      ensures notifications == (if savedNotifications.Some? then savedNotifications.value else InitialNotifications)
    {
      theme := InitialTheme(savedTheme, prefersDark);
      profile := if savedProfile.Some? then savedProfile.value else InitialProfile;
      transactions := if savedTransactions.Some? then savedTransactions.value else InitialTransactions;
      lendRecords := if savedLendRecords.Some? then savedLendRecords.value else InitialLendRecords;
      notifications := if savedNotifications.Some? then savedNotifications.value else InitialNotifications;
    }

    method ToggleTheme()
      modifies this
      ensures theme == Flip(old(theme))
      ensures profile == old(profile) && transactions == old(transactions)
      ensures lendRecords == old(lendRecords) && notifications == old(notifications)
    {
      theme := Flip(theme);
    }

    method UpdateProfile(p: UserProfile)
      modifies this
      ensures profile == p
      ensures theme == old(theme) && transactions == old(transactions)
      ensures lendRecords == old(lendRecords) && notifications == old(notifications)
    {
      profile := p;
    }

    method AddTransaction(t: Transaction)
      modifies this
      ensures transactions == old(transactions) + [t]
      ensures theme == old(theme) && profile == old(profile)
      ensures lendRecords == old(lendRecords) && notifications == old(notifications)
    {
      transactions := transactions + [t];
    }

    method DeleteTransaction(id: string)
      modifies this
      ensures transactions == Without(old(transactions), TransactionId, id)
      ensures theme == old(theme) && profile == old(profile)
      ensures lendRecords == old(lendRecords) && notifications == old(notifications)
    {
      transactions := Without(transactions, TransactionId, id);
    }

    method AddLendRecord(r: LendRecord)
      modifies this
      ensures lendRecords == old(lendRecords) + [r]
      ensures theme == old(theme) && profile == old(profile)
      ensures transactions == old(transactions) && notifications == old(notifications)
    {
      lendRecords := lendRecords + [r];
    }

    method UpdateLendRecord(updated: LendRecord)
      modifies this
      ensures lendRecords == ReplaceById(old(lendRecords), RecordId, updated)
      ensures theme == old(theme) && profile == old(profile)
      ensures transactions == old(transactions) && notifications == old(notifications)
    {
      lendRecords := ReplaceById(lendRecords, RecordId, updated);
    }

    method DeleteLendRecord(id: string)
      modifies this
      ensures lendRecords == Without(old(lendRecords), RecordId, id)
      ensures theme == old(theme) && profile == old(profile)
      ensures transactions == old(transactions) && notifications == old(notifications)
    {
      lendRecords := Without(lendRecords, RecordId, id);
    }

    function Unread(): (c: nat)
      reads this
      ensures c <= |notifications|
    {
      UnreadCount(notifications)
    }

    method MarkAsRead(id: string)
      modifies this
      ensures notifications == MarkRead(old(notifications), id)
      ensures Unread() <= old(Unread())
      ensures theme == old(theme) && profile == old(profile)
      ensures transactions == old(transactions) && lendRecords == old(lendRecords)
    {
      MarkReadCount(notifications, id);
      notifications := MarkRead(notifications, id);
    }

    method MarkAllAsRead()
      modifies this
      ensures notifications == MarkAllRead(old(notifications))
      ensures Unread() == 0
      ensures theme == old(theme) && profile == old(profile)
      ensures transactions == old(transactions) && lendRecords == old(lendRecords)
    {
      MarkAllReadClears(notifications);
      notifications := MarkAllRead(notifications);
    }
  }
}
