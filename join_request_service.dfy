/** `JoinRequestService`: a user asks to join a trip by code, and the trip's
    creator approves (adding the user) or rejects the request. */
module JoinRequestService {
  import opened Wrappers
  import opened Seqs
  import opened UserModel
  import opened Store

  const TRIP_NOT_FOUND := "Trip not found"
  const USER_NOT_FOUND := "User not found"
  const ALREADY_MEMBER := "You are already a member of this trip"
  const ALREADY_PENDING := "You already have a pending join request for this trip"
  const REQUEST_NOT_FOUND := "Join request not found"
  const ALREADY_PROCESSED := "This request has already been processed"
  const ONLY_CREATOR_APPROVES := "Only the trip creator can approve join requests"
  const ONLY_CREATOR_REJECTS := "Only the trip creator can reject join requests"

  /** `submitJoinRequest`: the checks in the source's order, then a new
      PENDING request carrying the user's display name; `now` is the clock. */
  method SubmitJoinRequest(db: Database, tripId: TripId, userId: UserId, newId: RequestId, now: int)
    returns (r: Result<JoinRequest, string>)
    requires db.Valid() && newId !in db.joinRequests
    modifies db
    ensures db.Valid()
    ensures tripId !in old(db.trips) ==> r == Err(TRIP_NOT_FOUND)
    ensures tripId in old(db.trips) && userId !in old(db.users) ==> r == Err(USER_NOT_FOUND)
    ensures tripId in old(db.trips) && userId in old(db.users) && userId in old(db.trips[tripId].members)
            ==> r == Err(ALREADY_MEMBER)
    ensures (tripId in old(db.trips) && userId in old(db.users) && userId !in old(db.trips[tripId].members)
             && HasPending(old(db.joinRequests), tripId, userId)) ==> r == Err(ALREADY_PENDING)
    ensures r.Err? ==> db.State() == old(db.State())
    ensures r.Ok? <==>
              && tripId in old(db.trips) && userId in old(db.users)
              && userId !in old(db.trips[tripId].members)
              && !HasPending(old(db.joinRequests), tripId, userId)
              && GetName(old(db.users[userId])).Ok?
    ensures r.Ok? ==>
              && r.value == JoinRequest(newId, tripId, userId, GetName(old(db.users[userId])).value,
                                        Pending, now, None, None)
              && db.State() == old(db.State()).(joinRequests := old(db.joinRequests)[newId := r.value])
              && HasPending(db.joinRequests, tripId, userId)
  {
    if tripId !in db.trips {
      return Err(TRIP_NOT_FOUND);
    }
    var trip := db.trips[tripId];
    if userId !in db.users {
      return Err(USER_NOT_FOUND);
    }
    var user := db.users[userId];
    if userId in trip.members {
      return Err(ALREADY_MEMBER);
    }
    if HasPending(db.joinRequests, tripId, userId) {
      return Err(ALREADY_PENDING);
    }
    var name := GetName(user);
    if name.Err? {
      return Err(name.error);
    }
    var req := JoinRequest(newId, tripId, userId, name.value, Pending, now, None, None);
    NewRequestKeepsValid(db.joinRequests, db.trips, db.users, req);
    db.joinRequests := db.joinRequests[newId := req];
    assert db.joinRequests[newId] == req;
    r := Ok(req);
  }

  /** Storing a new pending request for a pair with none keeps the request
      invariant, and the pair then has a pending request. */
  lemma NewRequestKeepsValid(reqs: map<RequestId, JoinRequest>, trips: map<TripId, Trip>, users: map<UserId, User>, req: JoinRequest)
    requires RequestsValid(reqs, trips, users) && req.id !in reqs
    requires req.tripId in trips && req.userId in users && req.status == Pending
    requires !HasPending(reqs, req.tripId, req.userId)
    ensures RequestsValid(reqs[req.id := req], trips, users)
    ensures HasPending(reqs[req.id := req], req.tripId, req.userId)
  {
    assert reqs[req.id := req][req.id] == req;
  }

  /** `findByTripIdAndStatus(tripId, PENDING)`. */
  function PendingRequestsForTrip(reqs: map<RequestId, JoinRequest>, tripId: TripId): (r: set<JoinRequest>)
    ensures forall q :: q in r <==> q in reqs.Values && q.tripId == tripId && q.status == Pending
  {
    set id | id in reqs && reqs[id].tripId == tripId && reqs[id].status == Pending :: reqs[id]
  }

  /** `getUserJoinRequests`: only the user's PENDING requests. */
  function UserJoinRequests(reqs: map<RequestId, JoinRequest>, userId: UserId): (r: set<JoinRequest>)
    ensures forall q :: q in r <==> q in reqs.Values && q.userId == userId && q.status == Pending
  {
    set id | id in reqs && reqs[id].userId == userId && reqs[id].status == Pending :: reqs[id]
  }

  /** While the store keeps at most one pending request per pair, a user's
      pending list holds at most one request for each trip. */
  lemma UserPendingOnePerTrip(reqs: map<RequestId, JoinRequest>, userId: UserId, q1: JoinRequest, q2: JoinRequest)
    requires AtMostOnePending(reqs)
    requires q1 in UserJoinRequests(reqs, userId) && q2 in UserJoinRequests(reqs, userId)
    requires q1.tripId == q2.tripId
    ensures q1 == q2
  {
    var a :| a in reqs && reqs[a] == q1;
    var b :| b in reqs && reqs[b] == q2;
  }

  /** The member list after approving: unchanged when the user is already in it. */
  function AddIfAbsent(members: seq<UserId>, u: UserId): (r: seq<UserId>)
    ensures u in r && forall v :: v in r <==> v in members || v == u
    ensures NoDup(members) ==> NoDup(r)
    ensures u in members ==> r == members
  {
    if u in members then members
    else
      NoDupAppendFacts(members, u);
      members + [u]
  }

  lemma NoDupAppendFacts(members: seq<UserId>, u: UserId)
    requires u !in members
    ensures NoDup(members) ==> NoDup(members + [u])
  {
    if NoDup(members) {
      NoDupAppend(members, u);
    }
  }

  /** The checks `approveJoinRequest` and `rejectJoinRequest` share, in their
      order; `Pass` carries nothing, the request and trip are read after. */
  function Respondable(reqs: map<RequestId, JoinRequest>, trips: map<TripId, Trip>, requestId: RequestId, responderId: UserId, onlyCreator: string)
    : (r: Outcome<string>)
    ensures r.Pass? <==>
              && requestId in reqs && reqs[requestId].status == Pending
              && reqs[requestId].tripId in trips
              && trips[reqs[requestId].tripId].createdBy == responderId
    ensures requestId !in reqs ==> r == Fail(REQUEST_NOT_FOUND)
    ensures requestId in reqs && reqs[requestId].status != Pending
            ==> r == Fail(ALREADY_PROCESSED)
    ensures (requestId in reqs && reqs[requestId].status == Pending
             && reqs[requestId].tripId !in trips) ==> r == Fail(TRIP_NOT_FOUND)
    ensures (requestId in reqs && reqs[requestId].status == Pending
             && reqs[requestId].tripId in trips
             && trips[reqs[requestId].tripId].createdBy != responderId) ==> r == Fail(onlyCreator)
  {
    if requestId !in reqs then Fail(REQUEST_NOT_FOUND)
    else
      var req := reqs[requestId];
      if req.status != Pending then Fail(ALREADY_PROCESSED)
      else if req.tripId !in trips then Fail(TRIP_NOT_FOUND)
      else if trips[req.tripId].createdBy != responderId then Fail(onlyCreator)
      else Pass
  }

  /** Marking the one pending request of a (trip, user) pair as answered
      leaves that pair with no pending request. */
  lemma AnsweredLeavesNoPending(reqs: map<RequestId, JoinRequest>, id: RequestId, answered: JoinRequest)
    requires AtMostOnePending(reqs) && id in reqs && reqs[id].status == Pending
    requires answered.status != Pending && answered.tripId == reqs[id].tripId && answered.userId == reqs[id].userId
    ensures AtMostOnePending(reqs[id := answered])
    ensures !HasPending(reqs[id := answered], answered.tripId, answered.userId)
  {
  }

  /** Approving a pending request, which adds its user to its trip, keeps
      every invariant of the database. */
  lemma ApproveKeepsValid(st: DbState, requestId: RequestId, answered: JoinRequest)
    requires UsersValid(st.users) && TripsValid(st.trips, st.users) && ExpensesValid(st.expenses, st.trips, st.users)
    requires RequestsValid(st.joinRequests, st.trips, st.users) && OtpsValid(st.otps)
    requires requestId in st.joinRequests && st.joinRequests[requestId].status == Pending
    requires answered == st.joinRequests[requestId].(status := Approved, respondedBy := answered.respondedBy, respondedAt := answered.respondedAt)
    ensures var req := st.joinRequests[requestId];
            var trips := st.trips[req.tripId := st.trips[req.tripId].(members := AddIfAbsent(st.trips[req.tripId].members, req.userId))];
            var reqs := st.joinRequests[requestId := answered];
            && TripsValid(trips, st.users) && ExpensesValid(st.expenses, trips, st.users)
            && RequestsValid(reqs, trips, st.users)
            && !HasPending(reqs, req.tripId, req.userId)
  {
    var req := st.joinRequests[requestId];
    GrowMembersKeepsValid(st, req.tripId, AddIfAbsent(st.trips[req.tripId].members, req.userId));
    AnsweredLeavesNoPending(st.joinRequests, requestId, answered);
  }

  /** `approveJoinRequest`: after the shared checks, the requester becomes a
      member (once) and the request is APPROVED by the approver at `now`. */
  method ApproveJoinRequest(db: Database, requestId: RequestId, approverId: UserId, now: int)
    returns (r: Result<JoinRequest, string>)
    requires db.Valid()
    modifies db
    ensures db.Valid()
    ensures Respondable(old(db.joinRequests), old(db.trips), requestId, approverId, ONLY_CREATOR_APPROVES).Fail? ==>
              r == Err(Respondable(old(db.joinRequests), old(db.trips), requestId, approverId, ONLY_CREATOR_APPROVES).error)
              && db.State() == old(db.State())
    ensures r.Ok? <==> Respondable(old(db.joinRequests), old(db.trips), requestId, approverId, ONLY_CREATOR_APPROVES).Pass?
    ensures r.Ok? ==>
              var req := old(db.joinRequests[requestId]);
              var trip := old(db.trips[req.tripId]);
              && r.value == req.(status := Approved, respondedBy := Some(approverId), respondedAt := Some(now))
              && db.State() == old(db.State()).(
                   trips := old(db.trips)[req.tripId := trip.(members := AddIfAbsent(trip.members, req.userId))],
                   joinRequests := old(db.joinRequests)[requestId := r.value])
              && req.userId in db.trips[req.tripId].members
              && !HasPending(db.joinRequests, req.tripId, req.userId)
  {
    var check := Respondable(db.joinRequests, db.trips, requestId, approverId, ONLY_CREATOR_APPROVES);
    if check.Fail? {
      return Err(check.error);
    }
    var req := db.joinRequests[requestId];
    var trip := db.trips[req.tripId];
    var members := AddIfAbsent(trip.members, req.userId);
    var answered := req.(status := Approved, respondedBy := Some(approverId), respondedAt := Some(now));
    ApproveKeepsValid(db.State(), requestId, answered);
    db.trips := db.trips[req.tripId := trip.(members := members)];
    db.joinRequests := db.joinRequests[requestId := answered];
    r := Ok(answered);
  }

  /** `rejectJoinRequest`: after the shared checks, the request is REJECTED by
      the rejector at `now`; trips are untouched. */
  method RejectJoinRequest(db: Database, requestId: RequestId, rejectorId: UserId, now: int)
    returns (r: Result<JoinRequest, string>)
    requires db.Valid()
    modifies db
    ensures db.Valid()
    ensures Respondable(old(db.joinRequests), old(db.trips), requestId, rejectorId, ONLY_CREATOR_REJECTS).Fail? ==>
              r == Err(Respondable(old(db.joinRequests), old(db.trips), requestId, rejectorId, ONLY_CREATOR_REJECTS).error)
              && db.State() == old(db.State())
    ensures r.Ok? <==> Respondable(old(db.joinRequests), old(db.trips), requestId, rejectorId, ONLY_CREATOR_REJECTS).Pass?
    ensures r.Ok? ==>
              var req := old(db.joinRequests[requestId]);
              && r.value == req.(status := Rejected, respondedBy := Some(rejectorId), respondedAt := Some(now))
              && db.State() == old(db.State()).(joinRequests := old(db.joinRequests)[requestId := r.value])
              && !HasPending(db.joinRequests, req.tripId, req.userId)
  {
    var check := Respondable(db.joinRequests, db.trips, requestId, rejectorId, ONLY_CREATOR_REJECTS);
    if check.Fail? {
      return Err(check.error);
    }
    var req := db.joinRequests[requestId];
    var answered := req.(status := Rejected, respondedBy := Some(rejectorId), respondedAt := Some(now));
    AnsweredLeavesNoPending(db.joinRequests, requestId, answered);
    db.joinRequests := db.joinRequests[requestId := answered];
    r := Ok(answered);
  }

  /** Only a PENDING request can be answered, so approving or rejecting twice
      fails the second time with "already processed". */
  lemma AnsweredOnce(reqs: map<RequestId, JoinRequest>, trips: map<TripId, Trip>, requestId: RequestId,
                     responderId: UserId, onlyCreator: string, answered: JoinRequest)
    requires answered.status != Pending
    ensures Respondable(reqs[requestId := answered], trips, requestId, responderId, onlyCreator)
            == Fail(ALREADY_PROCESSED)
  {
  }
}
