/** `TripService`: trip creation with a unique code, membership, lookups and
    the dashboard summary. */
module TripService {
  import opened Wrappers
  import opened Seqs
  import opened Money
  import opened UserModel
  import opened Store
  import opened TripCodes

  const CREATOR_NOT_FOUND := "Creator user not found"
  const CODE_FAILURE := "Failed to generate unique trip code"
  const TRIP_NOT_FOUND := "Trip not found"
  const USER_NOT_FOUND := "User not found"
  const ALREADY_MEMBER := "User is already a member of this trip"
  const UNKNOWN := "Unknown"
  /** Stand-in for the message of the exception thrown when a null amount
      is unboxed; the JDK's own text is not modelled. */
  const NULL_AMOUNT := "amount is null"
  /** Draws after which code generation gives up. */
  const MAX_ATTEMPTS := 10

  /** A supply of random draws for code generation: one index sequence per attempt. */
  predicate ValidCodeDraws(draws: seq<seq<nat>>)
  {
    forall k :: 0 <= k < |draws| ==> |draws[k]| == CODE_LENGTH && ValidDraws(draws[k])
  }

  /** The code each attempt would draw. */
  function DrawnCodes(draws: seq<seq<nat>>): (codes: seq<string>)
    requires ValidCodeDraws(draws)
    ensures |codes| == |draws|
    ensures forall k :: 0 <= k < |draws| ==> codes[k] == CodeOf(draws[k])
  {
    if draws == [] then [] else [CodeOf(draws[0])] + DrawnCodes(draws[1..])
  }

  /** The outcome of drawing from attempt `k` on: the first unused code
      among attempts `k` to 9, or the failure once ten attempts are used up. */
  function FirstFree(trips: map<TripId, Trip>, codes: seq<string>, k: nat): (r: Result<string, string>)
    requires |codes| > MAX_ATTEMPTS && k <= MAX_ATTEMPTS
    ensures r.Err? ==> r.error == CODE_FAILURE
    ensures r.Ok? ==> !CodeTaken(trips, r.value) && r.value in codes[k..MAX_ATTEMPTS]
    decreases MAX_ATTEMPTS - k
  {
    if k == MAX_ATTEMPTS then Err(CODE_FAILURE)
    else if !CodeTaken(trips, codes[k]) then Ok(codes[k])
    else FirstFree(trips, codes, k + 1)
  }

  /** Code generation fails exactly when every one of the ten checked codes
      is in use; otherwise it returns an unused code, the first one drawn. */
  lemma {:induction false} FirstFreeSpec(trips: map<TripId, Trip>, codes: seq<string>, k: nat)
    requires |codes| > MAX_ATTEMPTS && k <= MAX_ATTEMPTS
    ensures FirstFree(trips, codes, k).Err? <==> forall j :: k <= j < MAX_ATTEMPTS ==> CodeTaken(trips, codes[j])
    ensures FirstFree(trips, codes, k).Err? ==> FirstFree(trips, codes, k).error == CODE_FAILURE
    ensures FirstFree(trips, codes, k).Ok? ==>
              && !CodeTaken(trips, FirstFree(trips, codes, k).value)
              && exists j :: && k <= j < MAX_ATTEMPTS && FirstFree(trips, codes, k).value == codes[j]
                             && forall i :: k <= i < j ==> CodeTaken(trips, codes[i])
    decreases MAX_ATTEMPTS - k
  {
    if k < MAX_ATTEMPTS && CodeTaken(trips, codes[k]) {
      FirstFreeSpec(trips, codes, k + 1);
      if FirstFree(trips, codes, k).Ok? {
        var j :| && k + 1 <= j < MAX_ATTEMPTS && FirstFree(trips, codes, k).value == codes[j]
                 && forall i :: k + 1 <= i < j ==> CodeTaken(trips, codes[i]);
        assert forall i :: k <= i < j ==> CodeTaken(trips, codes[i]);
      }
    }
  }

  /** `generateUniqueTripCode`: draws codes until one is unused. The counter
      check comes before the existence check, so the 11th code is drawn but
      never checked. */
  method GenerateUniqueTripCode(db: Database, draws: seq<seq<nat>>) returns (r: Result<string, string>)
    requires |draws| > MAX_ATTEMPTS && ValidCodeDraws(draws)
    ensures r == FirstFree(db.trips, DrawnCodes(draws), 0)
  {
    var trips := db.trips;
    ghost var codes := DrawnCodes(draws);
    var attempts := 0;
    while true
      invariant 0 <= attempts <= MAX_ATTEMPTS
      invariant FirstFree(trips, codes, attempts) == FirstFree(trips, codes, 0)
      decreases MAX_ATTEMPTS - attempts
    {
      var code := Generate(draws[attempts]);
      attempts := attempts + 1;
      if attempts > MAX_ATTEMPTS {
        return Err(CODE_FAILURE);
      }
      if !CodeTaken(trips, code) {
        return Ok(code);
      }
    }
  }

  /** Storing a new trip with a fresh id and an unused code, whose only member
      is its existing creator, keeps the trip and expense invariants. */
  lemma AddTripKeepsValid(st: DbState, trip: Trip)
    requires TripsValid(st.trips, st.users) && ExpensesValid(st.expenses, st.trips, st.users)
    requires RequestsValid(st.joinRequests, st.trips, st.users)
    requires trip.id !in st.trips && trip.members == [trip.createdBy] && trip.createdBy in st.users
    requires !CodeTaken(st.trips, trip.tripCode)
    ensures TripsValid(st.trips[trip.id := trip], st.users)
    ensures ExpensesValid(st.expenses, st.trips[trip.id := trip], st.users)
    ensures RequestsValid(st.joinRequests, st.trips[trip.id := trip], st.users)
  {
  }

  /** `createTrip`: the creator must exist; the new trip has a fresh code,
      records its creator and has the creator as its only member. */
  method CreateTrip(db: Database, name: string, createdBy: UserId, draws: seq<seq<nat>>, newId: TripId)
    returns (r: Result<Trip, string>)
    requires db.Valid() && newId !in db.trips
    requires |draws| > MAX_ATTEMPTS && ValidCodeDraws(draws)
    modifies db
    ensures db.Valid()
    ensures createdBy !in old(db.users) ==> r == Err(CREATOR_NOT_FOUND)
    ensures r.Err? ==> db.State() == old(db.State())
    ensures createdBy in old(db.users) && r.Err? ==> r.error == CODE_FAILURE
    ensures createdBy in old(db.users) ==> (r.Ok? <==> FirstFree(old(db.trips), DrawnCodes(draws), 0).Ok?)
    ensures r.Ok? ==> FirstFree(old(db.trips), DrawnCodes(draws), 0) == Ok(r.value.tripCode)
    ensures r.Ok? ==>
              && r.value == Trip(newId, name, r.value.tripCode, createdBy, [createdBy], Active)
              && !CodeTaken(old(db.trips), r.value.tripCode)
              && db.State() == old(db.State()).(trips := old(db.trips)[newId := r.value])
  {
    if createdBy !in db.users {
      return Err(CREATOR_NOT_FOUND);
    }
    var members := [createdBy];
    var code := GenerateUniqueTripCode(db, draws);
    FirstFreeSpec(db.trips, DrawnCodes(draws), 0);
    if code.Err? {
      return Err(code.error);
    }
    var trip := Trip(newId, name, code.value, createdBy, members, Active);
    AddTripKeepsValid(db.State(), trip);
    db.trips := db.trips[newId := trip];
    r := Ok(trip);
  }

  /** `getTripById`: fails exactly when no trip has this id. */
  function GetTripById(trips: map<TripId, Trip>, tripId: TripId): (r: Result<Trip, string>)
    ensures r.Ok? <==> tripId in trips
    ensures r.Ok? ==> r.value == trips[tripId]
    ensures r.Err? ==> r.error == TRIP_NOT_FOUND
  {
    if tripId in trips then Ok(trips[tripId]) else Err(TRIP_NOT_FOUND)
  }

  /** `getTripByCode`: fails exactly when no trip has this code; codes are
      unique, so the trip found is the one stored under its id. */
  method GetTripByCode(db: Database, tripCode: string) returns (r: Result<Trip, string>)
    requires db.Valid()
    ensures r.Ok? <==> CodeTaken(db.trips, tripCode)
    ensures r.Ok? ==> r.value.tripCode == tripCode && r.value.id in db.trips && db.trips[r.value.id] == r.value
    ensures r.Err? ==> r.error == "Trip not found with code: " + tripCode
  {
    if CodeTaken(db.trips, tripCode) {
      var id :| id in db.trips && db.trips[id].tripCode == tripCode;
      r := Ok(db.trips[id]);
    } else {
      r := Err("Trip not found with code: " + tripCode);
    }
  }

  /** `getTripsByUser`: the trips whose member list contains the user. */
  function GetTripsByUser(trips: map<TripId, Trip>, userId: UserId): (r: set<Trip>)
    ensures forall t :: t in r <==> t in trips.Values && userId in t.members
  {
    set id | id in trips && userId in trips[id].members :: trips[id]
  }

  /** `addMemberToTrip`: checks the trip, then the user, then membership;
      otherwise appends the user at the end of the member list. */
  method AddMemberToTrip(db: Database, tripId: TripId, userId: UserId) returns (r: Result<Trip, string>)
    requires db.Valid()
    modifies db
    ensures db.Valid()
    ensures tripId !in old(db.trips) ==> r == Err(TRIP_NOT_FOUND)
    ensures tripId in old(db.trips) && userId !in old(db.users) ==> r == Err(USER_NOT_FOUND)
    ensures tripId in old(db.trips) && userId in old(db.users) && userId in old(db.trips[tripId].members)
            ==> r == Err(ALREADY_MEMBER)
    ensures r.Err? ==> db.State() == old(db.State())
    ensures r.Ok? ==>
              && tripId in old(db.trips) && userId !in old(db.trips[tripId].members)
              && r.value == old(db.trips[tripId]).(members := old(db.trips[tripId].members) + [userId])
              && db.State() == old(db.State()).(trips := old(db.trips)[tripId := r.value])
  {
    if tripId !in db.trips {
      return Err(TRIP_NOT_FOUND);
    }
    var trip := db.trips[tripId];
    if userId !in db.users {
      return Err(USER_NOT_FOUND);
    }
    if userId in trip.members {
      return Err(ALREADY_MEMBER);
    }
    NoDupAppend(trip.members, userId);
    GrowMembersKeepsValid(db.State(), tripId, trip.members + [userId]);
    trip := trip.(members := trip.members + [userId]);
    db.trips := db.trips[tripId := trip];
    r := Ok(trip);
  }

  // ---- getTripSummary ----

  datatype TripSummary = TripSummary(
    tripId: TripId,
    tripCode: string,
    name: string,
    memberCount: int,
    totalExpensesAmount: int,   // in paise
    memberNames: seq<string>)

  /** The display name of each member, "Unknown" for a member with no stored
      user; a `getName` that throws aborts the stream. */
  function MemberNames(members: seq<UserId>, users: map<UserId, User>): (r: Result<seq<string>, string>)
    ensures r.Ok? ==> |r.value| == |members|
    ensures r.Err? ==> r.error == SPLIT_INDEX_ERROR
  {
    if members == [] then Ok([])
    else
      var head := if members[0] in users then GetName(users[members[0]]) else Ok(UNKNOWN);
      if head.Err? then Err(head.error)
      else
        var rest := MemberNames(members[1..], users);
        if rest.Err? then rest else Ok([head.value] + rest.value)
  }

  /** Total of the expenses in paise, the amounts being stored in paise:
      each amount rounded with `Math.round`; a null amount throws. */
  function PaiseTotal(es: seq<Expense>): (r: Result<int, string>)
    ensures r.Err? ==> r.error == NULL_AMOUNT
    ensures (forall i :: 0 <= i < |es| ==> es[i].amount.Some?) ==> r.Ok?
  {
    if es == [] then Ok(0)
    else if es[0].amount.None? then Err(NULL_AMOUNT)
    else
      var rest := PaiseTotal(es[1..]);
      if rest.Err? then rest else Ok(RoundHalfUp(es[0].amount.value) + rest.value)
  }

  /** The total as the source writes it: `Math.round(amount * 100)` per expense. */
  function PaiseTotalAsWritten(es: seq<Expense>): (r: Result<int, string>)
    ensures r.Err? ==> r.error == NULL_AMOUNT
    ensures (forall i :: 0 <= i < |es| ==> es[i].amount.Some?) ==> r.Ok?
  {
    if es == [] then Ok(0)
    else if es[0].amount.None? then Err(NULL_AMOUNT)
    else
      var rest := PaiseTotalAsWritten(es[1..]);
      if rest.Err? then rest else Ok(RoundHalfUp(es[0].amount.value * 100.0) + rest.value)
  }

  /** `getTripSummary`, with the paise total. */
  function GetTripSummary(trips: map<TripId, Trip>, users: map<UserId, User>, expenses: seq<Expense>, tripId: TripId)
    : (r: Result<TripSummary, string>)
    ensures tripId !in trips ==> r == Err(TRIP_NOT_FOUND)
    ensures r.Ok? ==> && tripId in trips && r.value.tripCode == trips[tripId].tripCode
                      && r.value.memberCount == |trips[tripId].members| == |r.value.memberNames|
  {
    if tripId !in trips then Err(TRIP_NOT_FOUND)
    else
      var trip := trips[tripId];
      var names := MemberNames(trip.members, users);
      if names.Err? then Err(names.error)
      else
        var total := PaiseTotal(ExpensesOf(expenses, tripId));
        if total.Err? then Err(total.error)
        else Ok(TripSummary(trip.id, trip.tripCode, trip.name, |trip.members|, total.value, names.value))
  }

  /** The member names line up with the member list: same length and order,
      "Unknown" for a member with no stored user. */
  lemma {:induction false} MemberNamesSpec(members: seq<UserId>, users: map<UserId, User>)
    requires MemberNames(members, users).Ok?
    ensures |MemberNames(members, users).value| == |members|
    ensures forall i :: 0 <= i < |members| && members[i] in users ==> GetName(users[members[i]]).Ok?
    ensures forall i :: 0 <= i < |members| ==>
              MemberNames(members, users).value[i]
              == (if members[i] in users then GetName(users[members[i]]).value else UNKNOWN)
  {
    if members != [] {
      MemberNamesSpec(members[1..], users);
      var rest := MemberNames(members[1..], users).value;
      assert forall i :: 1 <= i < |members| ==> members[i] == members[1..][i - 1];
    }
  }

  /** The names stream fails only when a stored member's `getName` throws. */
  lemma {:induction false} MemberNamesOk(members: seq<UserId>, users: map<UserId, User>)
    requires forall i :: 0 <= i < |members| && members[i] in users ==> GetName(users[members[i]]).Ok?
    ensures MemberNames(members, users).Ok?
  {
    if members != [] {
      MemberNamesOk(members[1..], users);
    }
  }

  /** The summary of an existing trip: its member count is the member list's
      length and its names follow the member list. */
  lemma TripSummarySpec(trips: map<TripId, Trip>, users: map<UserId, User>, expenses: seq<Expense>, tripId: TripId)
    ensures tripId !in trips ==> GetTripSummary(trips, users, expenses, tripId) == Err(TRIP_NOT_FOUND)
    ensures GetTripSummary(trips, users, expenses, tripId).Ok? ==>
              var s := GetTripSummary(trips, users, expenses, tripId).value;
              && s.tripId == trips[tripId].id && s.tripCode == trips[tripId].tripCode
              && s.memberCount == |trips[tripId].members| == |s.memberNames|
              && (forall i :: 0 <= i < |s.memberNames| && trips[tripId].members[i] in users ==>
                    GetName(users[trips[tripId].members[i]]).Ok?)
              && (forall i :: 0 <= i < |s.memberNames| ==>
                    s.memberNames[i] == (if trips[tripId].members[i] in users
                                         then GetName(users[trips[tripId].members[i]]).value else UNKNOWN))
              && PaiseTotal(ExpensesOf(expenses, tripId)) == Ok(s.totalExpensesAmount)
  {
    if tripId in trips && MemberNames(trips[tripId].members, users).Ok? {
      MemberNamesSpec(trips[tripId].members, users);
    }
  }

  /** Every amount is present and a whole number of paise. */
  predicate WholePaiseAmounts(es: seq<Expense>)
  {
    forall i :: 0 <= i < |es| ==> es[i].amount.Some? && es[i].amount.value.Floor as real == es[i].amount.value
  }

  /** The exact sum of the stored amounts. */
  function SumAmounts(es: seq<Expense>): real
    requires forall i :: 0 <= i < |es| ==> es[i].amount.Some?
  {
    if es == [] then 0.0 else es[0].amount.value + SumAmounts(es[1..])
  }

  /** With amounts in whole paise, the corrected total is their exact sum and
      the total as written is one hundred times larger. */
  lemma {:induction false} PaiseTotalScaling(es: seq<Expense>)
    requires WholePaiseAmounts(es)
    ensures PaiseTotal(es).Ok? && PaiseTotalAsWritten(es).Ok?
    ensures PaiseTotal(es).value as real == SumAmounts(es)
    ensures PaiseTotalAsWritten(es).value == 100 * PaiseTotal(es).value
  {
    if es != [] {
      assert WholePaiseAmounts(es[1..]) by {
        forall i | 0 <= i < |es[1..]| ensures es[1..][i] == es[i + 1] { }
      }
      PaiseTotalScaling(es[1..]);
      var a := es[0].amount.value;
      assert RoundHalfUp(a) == a.Floor;
      assert RoundHalfUp(a * 100.0) == 100 * a.Floor;
    }
  }

  /** One expense of Rs 900, stored as 90000 paise: the summary as written
      reports 9000000. */
  lemma TotalAsWrittenCounterexample()
    ensures var e := Expense("e", "t", "u", Some(90000.0), "dinner", ["u"]);
            PaiseTotalAsWritten([e]) == Ok(9000000) && PaiseTotal([e]) == Ok(90000)
  {
    var e := Expense("e", "t", "u", Some(90000.0), "dinner", ["u"]);
    assert [e][1..] == [];
  }
}
