/** The MongoDB collections the services share, as one object whose fields
    the services reassign, and the documents kept in them. Repository
    queries are the functions at the end of this module. */
module Store {
  import opened Wrappers
  import opened Seqs
  import opened UserModel
  import opened OtpModel

  type TripId = string
  type ExpenseId = string
  type RequestId = string

  datatype TripStatus = Active | Completed

  datatype Trip = Trip(
    id: TripId,
    name: string,
    tripCode: string,
    createdBy: UserId,
    members: seq<UserId>,
    status: TripStatus)

  /** An expense; `amount` is a nullable `Double`. */
  datatype Expense = Expense(
    id: ExpenseId,
    tripId: TripId,
    paidBy: UserId,
    amount: Option<real>,
    description: string,
    splitBetween: seq<UserId>)

  datatype RequestStatus = Pending | Approved | Rejected

  datatype JoinRequest = JoinRequest(
    id: RequestId,
    tripId: TripId,
    userId: UserId,
    userName: string,
    status: RequestStatus,
    requestedAt: int,
    respondedAt: Option<int>,
    respondedBy: Option<UserId>)

  class Database {
    var users: map<UserId, User>
    var trips: map<TripId, Trip>
    var expenses: seq<Expense>           // in insertion order
    var joinRequests: map<RequestId, JoinRequest>
    var otps: map<OtpId, Otp>

    /** What every service operation preserves. */
    ghost predicate Valid()
      reads this
    {
      && UsersValid(users)
      && TripsValid(trips, users)
      && ExpensesValid(expenses, trips, users)
      && RequestsValid(joinRequests, trips, users)
      && OtpsValid(otps)
    }

    /** The whole database as one value, for stating what an operation changed. */
    ghost function State(): DbState
      reads this
    {
      DbState(users, trips, expenses, joinRequests, otps)
    }

    constructor ()
      ensures Valid()
      ensures users == map[] && trips == map[] && expenses == [] && joinRequests == map[] && otps == map[]
    {
      users, trips, expenses, joinRequests, otps := map[], map[], [], map[], map[];
    }
  }

  datatype DbState = DbState(
    users: map<UserId, User>,
    trips: map<TripId, Trip>,
    expenses: seq<Expense>,
    joinRequests: map<RequestId, JoinRequest>,
    otps: map<OtpId, Otp>)

  /** Users are stored under their id, and no two share a `guestId`. */
  ghost predicate UsersValid(users: map<UserId, User>)
  {
    && (forall id :: id in users ==> users[id].id == id)
    && (forall a, b :: a in users && b in users && users[a].guestId.Some? && users[a].guestId == users[b].guestId ==> a == b)
  }

  /** Trips are stored under their id; members are distinct existing users
      and include the creator; trip codes are unique. */
  ghost predicate TripsValid(trips: map<TripId, Trip>, users: map<UserId, User>)
  {
    && (forall id :: id in trips ==> trips[id].id == id)
    && (forall id :: id in trips ==> NoDup(trips[id].members))
    && (forall id :: id in trips ==> trips[id].createdBy in trips[id].members)
    && (forall id, u :: id in trips && u in trips[id].members ==> u in users)
    && (forall a, b :: a in trips && b in trips && trips[a].tripCode == trips[b].tripCode ==> a == b)
  }

  /** The request-body validation of an expense: a positive amount and a
      non-empty split. */
  predicate WellFormedExpense(e: Expense)
  {
    e.amount.Some? && e.amount.value > 0.0 && |e.splitBetween| > 0
  }

  /** Every stored expense passed `createExpense`'s checks. */
  ghost predicate ExpensesValid(expenses: seq<Expense>, trips: map<TripId, Trip>, users: map<UserId, User>)
  {
    forall i :: 0 <= i < |expenses| ==>
      && WellFormedExpense(expenses[i])
      && expenses[i].tripId in trips
      && expenses[i].paidBy in trips[expenses[i].tripId].members
      && (forall u :: u in expenses[i].splitBetween ==> u in trips[expenses[i].tripId].members)
  }

  /** Requests are stored under their id and name an existing trip and user;
      there is at most one PENDING request per trip and user. */
  ghost predicate RequestsValid(reqs: map<RequestId, JoinRequest>, trips: map<TripId, Trip>, users: map<UserId, User>)
  {
    && (forall id :: id in reqs ==> reqs[id].id == id && reqs[id].tripId in trips && reqs[id].userId in users)
    && AtMostOnePending(reqs)
  }

  ghost predicate AtMostOnePending(reqs: map<RequestId, JoinRequest>)
  {
    forall a, b ::
      (a in reqs && b in reqs && reqs[a].status == Pending && reqs[b].status == Pending
       && reqs[a].tripId == reqs[b].tripId && reqs[a].userId == reqs[b].userId) ==> a == b
  }

  /** Records are stored under their id, and each expires ten minutes after
      it was created. */
  ghost predicate OtpsValid(otps: map<OtpId, Otp>)
  {
    forall id :: id in otps ==>
      otps[id].id == id && otps[id].expiresAt == otps[id].createdAt + VALIDITY_MINUTES * SECONDS_PER_MINUTE
  }

  /** Growing one trip's member list with existing users, without
      duplicates, keeps the trip, expense and request invariants. */
  lemma GrowMembersKeepsValid(st: DbState, tripId: TripId, members: seq<UserId>)
    requires TripsValid(st.trips, st.users) && ExpensesValid(st.expenses, st.trips, st.users)
    requires RequestsValid(st.joinRequests, st.trips, st.users)
    requires tripId in st.trips && NoDup(members)
    requires forall v :: v in st.trips[tripId].members ==> v in members
    requires forall v :: v in members ==> v in st.users
    ensures var trips := st.trips[tripId := st.trips[tripId].(members := members)];
            && TripsValid(trips, st.users) && ExpensesValid(st.expenses, trips, st.users)
            && RequestsValid(st.joinRequests, trips, st.users)
  {
  }

  // ---- repository queries ----

  /** `expenseRepository.findByTripId`: the trip's expenses in stored order. */
  function ExpensesOf(expenses: seq<Expense>, tripId: TripId): (r: seq<Expense>)
    ensures |r| <= |expenses|
  {
    if expenses == [] then []
    else (if expenses[0].tripId == tripId then [expenses[0]] else []) + ExpensesOf(expenses[1..], tripId)
  }

  /** The query finds exactly the stored expenses of the trip. */
  lemma {:induction false} ExpensesOfMembers(expenses: seq<Expense>, tripId: TripId)
    ensures forall e :: e in ExpensesOf(expenses, tripId) <==> e in expenses && e.tripId == tripId
    decreases |expenses|
  {
    if expenses != [] {
      ExpensesOfMembers(expenses[1..], tripId);
      assert forall e :: e in expenses <==> e == expenses[0] || e in expenses[1..];
    }
  }

  /** `tripRepository.existsByTripCode`. */
  predicate CodeTaken(trips: map<TripId, Trip>, code: string)
  {
    exists id :: id in trips && trips[id].tripCode == code
  }

  /** `joinRequestRepository.existsByTripIdAndUserIdAndStatus(trip, user, PENDING)`. */
  predicate HasPending(reqs: map<RequestId, JoinRequest>, tripId: TripId, userId: UserId)
  {
    exists id :: id in reqs && reqs[id].tripId == tripId && reqs[id].userId == userId && reqs[id].status == Pending
  }

  /** `userRepository.findByGuestId(guestId).isPresent()`. */
  predicate GuestIdTaken(users: map<UserId, User>, guestId: string)
  {
    exists id :: id in users && users[id].guestId == Some(guestId)
  }

  /** `userRepository.findByEmail(email).isPresent()`. */
  predicate EmailTaken(users: map<UserId, User>, email: string)
  {
    exists id :: id in users && users[id].email == Some(email)
  }
}
