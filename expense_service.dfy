/** `ExpenseService`: recording an expense against a trip and listing a
    trip's expenses. */
module ExpenseService {
  import opened Wrappers
  import opened UserModel
  import opened Store

  const TRIP_NOT_FOUND := "Trip not found"
  const PAYER_NOT_FOUND := "PaidBy user not found"
  const PAYER_NOT_MEMBER := "PaidBy user is not a member of this trip"

  /** The error for one entry of `splitBetween`, if any: existence is
      checked before membership. */
  function SplitEntryError(u: UserId, users: map<UserId, User>, members: seq<UserId>): Option<string>
  {
    if u !in users then Some("User not found in splitBetween: " + u)
    else if u !in members then Some("User not a trip member: " + u)
    else None
  }

  /** The first error met when the split list is scanned in order. */
  function FirstSplitError(split: seq<UserId>, users: map<UserId, User>, members: seq<UserId>): (r: Option<string>)
    ensures r.None? <==> forall u :: u in split ==> u in users && u in members
  {
    if split == [] then None
    else if SplitEntryError(split[0], users, members).Some? then SplitEntryError(split[0], users, members)
    else FirstSplitError(split[1..], users, members)
  }

  /** The scan passes exactly when every entry is an existing member, and an
      error names the first entry that is not. */
  lemma {:induction false} FirstSplitErrorSpec(split: seq<UserId>, users: map<UserId, User>, members: seq<UserId>)
    ensures FirstSplitError(split, users, members).None? <==> forall u :: u in split ==> u in users && u in members
    ensures FirstSplitError(split, users, members).Some? ==>
              exists k :: 0 <= k < |split|
                && FirstSplitError(split, users, members) == SplitEntryError(split[k], users, members)
                && (forall j :: 0 <= j < k ==> SplitEntryError(split[j], users, members).None?)
  {
    if split != [] {
      FirstSplitErrorSpec(split[1..], users, members);
      assert forall u :: u in split ==> u == split[0] || u in split[1..];
      if SplitEntryError(split[0], users, members).None? && FirstSplitError(split[1..], users, members).Some? {
        var k :| 0 <= k < |split[1..]|
                 && FirstSplitError(split[1..], users, members) == SplitEntryError(split[1..][k], users, members)
                 && (forall j :: 0 <= j < k ==> SplitEntryError(split[1..][j], users, members).None?);
        assert forall j :: 1 <= j < k + 1 ==> split[j] == split[1..][j - 1];
        assert SplitEntryError(split[k + 1], users, members) == FirstSplitError(split, users, members);
      }
    }
  }

  /** The checks `createExpense` makes before saving, in its order. */
  function ExpenseError(trips: map<TripId, Trip>, users: map<UserId, User>, tripId: TripId, paidBy: UserId,
                        split: seq<UserId>): (r: Option<string>)
    ensures r.None? <==> && tripId in trips && paidBy in users && paidBy in trips[tripId].members
                         && forall u :: u in split ==> u in users && u in trips[tripId].members
    ensures tripId !in trips ==> r == Some(TRIP_NOT_FOUND)
  {
    if tripId !in trips then Some(TRIP_NOT_FOUND)
    else if paidBy !in users then Some(PAYER_NOT_FOUND)
    else if paidBy !in trips[tripId].members then Some(PAYER_NOT_MEMBER)
    else FirstSplitError(split, users, trips[tripId].members)
  }

  /** `createExpense`: the request has passed bean validation (a positive
      amount, a non-empty split); the checks run in order, the split list
      entry by entry, and a passing expense is appended to the collection. */
  method CreateExpense(db: Database, tripId: TripId, paidBy: UserId, amount: real, description: string,
                       split: seq<UserId>, newId: ExpenseId) returns (r: Result<Expense, string>)
    requires db.Valid()
    requires amount > 0.0 && |split| > 0
    modifies db
    ensures db.Valid()
    ensures r.Err? <==> ExpenseError(old(db.trips), old(db.users), tripId, paidBy, split).Some?
    ensures r.Err? ==> r.error == ExpenseError(old(db.trips), old(db.users), tripId, paidBy, split).value
                       && db.State() == old(db.State())
    ensures r.Ok? ==>
              && r.value == Expense(newId, tripId, paidBy, Some(amount), description, split)
              && db.State() == old(db.State()).(expenses := old(db.expenses) + [r.value])
  {
    if tripId !in db.trips {
      return Err(TRIP_NOT_FOUND);
    }
    var trip := db.trips[tripId];
    if paidBy !in db.users {
      return Err(PAYER_NOT_FOUND);
    }
    if paidBy !in trip.members {
      return Err(PAYER_NOT_MEMBER);
    }
    for i := 0 to |split|
      invariant FirstSplitError(split, db.users, trip.members) == FirstSplitError(split[i..], db.users, trip.members)
    {
      assert split[i..][1..] == split[i + 1..];
      if split[i] !in db.users {
        return Err("User not found in splitBetween: " + split[i]);
      }
      if split[i] !in trip.members {
        return Err("User not a trip member: " + split[i]);
      }
    }
    FirstSplitErrorSpec(split, db.users, trip.members);
    var expense := Expense(newId, tripId, paidBy, Some(amount), description, split);
    db.expenses := db.expenses + [expense];
    r := Ok(expense);
  }

  /** `getExpensesForTrip`: the trip must exist; its expenses in stored order. */
  function GetExpensesForTrip(trips: map<TripId, Trip>, expenses: seq<Expense>, tripId: TripId)
    : (r: Result<seq<Expense>, string>)
    ensures r.Err? <==> tripId !in trips
    ensures r.Err? ==> r.error == TRIP_NOT_FOUND
    ensures r.Ok? ==> forall e :: e in r.value <==> e in expenses && e.tripId == tripId
  {
    ExpensesOfMembers(expenses, tripId);
    if tripId !in trips then Err(TRIP_NOT_FOUND) else Ok(ExpensesOf(expenses, tripId))
  }

  /** Recording an expense adds it to its trip's list, at the end, and
      leaves every other trip's list as it was. */
  lemma {:induction false} ExpensesOfAppend(expenses: seq<Expense>, e: Expense, tripId: TripId)
    ensures ExpensesOf(expenses + [e], tripId)
            == ExpensesOf(expenses, tripId) + (if e.tripId == tripId then [e] else [])
  {
    if expenses == [] {
      assert [e][1..] == [];
    } else {
      assert (expenses + [e])[1..] == expenses[1..] + [e];
      ExpensesOfAppend(expenses[1..], e, tripId);
    }
  }
}
