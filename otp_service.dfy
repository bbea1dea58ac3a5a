/** `OtpService`: one-time codes for e-mail sign-in, kept as records in the
    database. The random draw, the record id, the current time and the
    outcome of the e-mail delivery are supplied by the caller. */
module OtpService {
  import opened Wrappers
  import opened Decimal
  import opened OtpModel
  import opened Store

  const OTP_LENGTH := 6
  const SEND_FAILED := "Failed to send OTP email. Please try again."

  /** `generateOtpCode`: the draw of `nextInt(10^6)` written with six
      zero-padded digits. */
  function GenerateOtpCode(draw: nat): (code: string)
    requires draw < Pow10(OTP_LENGTH)
    ensures |code| == OTP_LENGTH && AllDigits(code)
    ensures ValueOf(code) == draw
  {
    ZeroPadRoundTrip(draw, OTP_LENGTH);
    ZeroPad(draw, OTP_LENGTH)
  }

  /** Distinct draws give distinct codes. */
  lemma OtpCodeInjective(a: nat, b: nat)
    requires a < Pow10(OTP_LENGTH) && b < Pow10(OTP_LENGTH)
    ensures GenerateOtpCode(a) == GenerateOtpCode(b) <==> a == b
  {
  }

  // ---- repository queries ----

  /** Some record of `email` has the given `verified` flag. */
  predicate HasRecord(otps: map<OtpId, Otp>, email: string, verified: bool)
  {
    exists id :: id in otps && otps[id].email == email && otps[id].verified == verified
  }

  /** `findFirstByEmailAndVerifiedIs…OrderByCreatedAtDesc`: `id` is a record
      of `email` with the flag, created no earlier than any other such record.
      Records created at the same time may tie; any of them may be found. */
  predicate IsLatest(otps: map<OtpId, Otp>, email: string, verified: bool, id: OtpId)
  {
    && id in otps && otps[id].email == email && otps[id].verified == verified
    && forall j :: j in otps && otps[j].email == email && otps[j].verified == verified ==>
         otps[j].createdAt <= otps[id].createdAt
  }

  lemma {:induction false} LatestOf(otps: map<OtpId, Otp>, s: set<OtpId>)
    requires s != {} && s <= otps.Keys
    ensures exists id :: id in s && forall j :: j in s ==> otps[j].createdAt <= otps[id].createdAt
    decreases s
  {
    var x :| x in s;
    if s != {x} {
      LatestOf(otps, s - {x});
      var y :| y in s - {x} && forall j :: j in s - {x} ==> otps[j].createdAt <= otps[y].createdAt;
      if otps[x].createdAt > otps[y].createdAt {
        assert forall j :: j in s ==> otps[j].createdAt <= otps[x].createdAt;
      } else {
        assert forall j :: j in s ==> otps[j].createdAt <= otps[y].createdAt;
      }
    }
  }

  /** Whenever `email` has a record with the flag, the query finds one. */
  lemma LatestExists(otps: map<OtpId, Otp>, email: string, verified: bool)
    ensures HasRecord(otps, email, verified) <==> exists id :: IsLatest(otps, email, verified, id)
  {
    if HasRecord(otps, email, verified) {
      var s := set id | id in otps && otps[id].email == email && otps[id].verified == verified;
      var w :| w in otps && otps[w].email == email && otps[w].verified == verified;
      assert w in s;
      LatestOf(otps, s);
      var id :| id in s && forall j :: j in s ==> otps[j].createdAt <= otps[id].createdAt;
      assert IsLatest(otps, email, verified, id);
    }
  }

  // ---- operations ----

  /** `generateAndSendOtp`: a new unverified record valid for ten minutes is
      saved first; a failed delivery leaves it in place and fails with
      "Failed to send OTP email. Please try again.". */
  method GenerateAndSendOtp(db: Database, email: string, draw: nat, newId: OtpId, now: int, delivered: bool)
    returns (r: Outcome<string>)
    requires db.Valid() && draw < Pow10(OTP_LENGTH) && newId !in db.otps
    modifies db
    ensures db.Valid()
    ensures db.State() == old(db.State()).(otps := old(db.otps)[newId := BuildOtp(newId, email, GenerateOtpCode(draw), false, now)])
    ensures r == if delivered then Pass else Fail(SEND_FAILED)
  {
    var otpCode := GenerateOtpCode(draw);
    var otp := BuildOtp(newId, email, otpCode, false, now);
    db.otps := db.otps[newId := otp];
    if !delivered {
      return Fail(SEND_FAILED);
    }
    r := Pass;
  }

  /** What `verifyOtp` does to the records of `email`: on success the
      latest unverified record, unexpired and holding exactly `provided`, is
      marked verified and kept; on failure nothing changes, and either there
      is no unverified record or the latest one is expired or holds another
      code. */
  ghost predicate VerifyEffect(before: map<OtpId, Otp>, after: map<OtpId, Otp>, email: string,
                               provided: string, now: int, ok: bool)
  {
    if ok then
      exists id :: && IsLatest(before, email, false, id)
                   && !IsExpired(before[id], now) && before[id].code == provided
                   && after == before[id := before[id].(verified := true)]
    else
      && after == before
      && (|| !HasRecord(before, email, false)
          || exists id :: IsLatest(before, email, false, id)
                          && (IsExpired(before[id], now) || before[id].code != provided))
  }

  /** `verifyOtp`. */
  method VerifyOtp(db: Database, email: string, providedOtp: string, now: int) returns (ok: bool)
    requires db.Valid()
    modifies db
    ensures db.Valid()
    ensures db.State() == old(db.State()).(otps := db.otps)
    ensures VerifyEffect(old(db.otps), db.otps, email, providedOtp, now, ok)
  {
    LatestExists(db.otps, email, false);
    if !HasRecord(db.otps, email, false) {
      return false;
    }
    var id :| IsLatest(db.otps, email, false, id);
    var otp := db.otps[id];
    if IsExpired(otp, now) {
      return false;
    }
    if otp.code != providedOtp {
      return false;
    }
    db.otps := db.otps[id := otp.(verified := true)];
    ok := true;
  }

  /** A record that `verifyOtp` marked is never the one it looks at again. */
  lemma VerifiedOnce(otps: map<OtpId, Otp>, email: string, id: OtpId, id': OtpId)
    requires IsLatest(otps, email, false, id)
    requires IsLatest(otps[id := otps[id].(verified := true)], email, false, id')
    ensures id' != id && id' in otps && !otps[id'].verified
  {
  }

  /** The latest verified record of `email` exists and has not expired. */
  ghost predicate VerificationActive(otps: map<OtpId, Otp>, email: string, now: int)
  {
    exists id :: IsLatest(otps, email, true, id) && !IsExpired(otps[id], now)
  }

  /** Two latest records created at the same time expire at the same time,
      so which of them the query finds does not matter. */
  lemma LatestSameExpiry(otps: map<OtpId, Otp>, email: string, verified: bool, a: OtpId, b: OtpId)
    requires OtpsValid(otps)
    requires IsLatest(otps, email, verified, a) && IsLatest(otps, email, verified, b)
    ensures otps[a].expiresAt == otps[b].expiresAt
  {
  }

  /** `isOtpVerified`: true exactly when the latest verified record of
      `email` exists and has not expired; nothing changes. */
  method IsOtpVerified(db: Database, email: string, now: int) returns (ok: bool)
    requires db.Valid()
    ensures ok <==> VerificationActive(db.otps, email, now)
  {
    LatestExists(db.otps, email, true);
    if !HasRecord(db.otps, email, true) {
      return false;
    }
    var id :| IsLatest(db.otps, email, true, id);
    ok := !IsExpired(db.otps[id], now);
    if !ok {
      forall id' | IsLatest(db.otps, email, true, id')
        ensures IsExpired(db.otps[id'], now)
      {
        LatestSameExpiry(db.otps, email, true, id, id');
      }
    }
  }

  /** A successful `verifyOtp` leaves the verification active at that time,
      which is what the password step checks next. */
  lemma VerifyActivates(before: map<OtpId, Otp>, after: map<OtpId, Otp>, email: string, provided: string, now: int)
    requires OtpsValid(before) && VerifyEffect(before, after, email, provided, now, true)
    ensures VerificationActive(after, email, now)
  {
    var id :| && IsLatest(before, email, false, id)
              && !IsExpired(before[id], now) && before[id].code == provided
              && after == before[id := before[id].(verified := true)];
    assert after[id].email == email && after[id].verified;
    LatestExists(after, email, true);
    var top :| IsLatest(after, email, true, top);
    assert after[top].createdAt >= after[id].createdAt;
    assert top != id ==> after[top] == before[top];
  }

  /** What `clearOtpVerification` does: the latest verified record of
      `email` is deleted, and nothing changes when there is none. */
  ghost predicate ClearEffect(before: map<OtpId, Otp>, after: map<OtpId, Otp>, email: string)
  {
    if HasRecord(before, email, true) then
      exists id :: IsLatest(before, email, true, id) && after == before - {id}
    else
      after == before
  }

  /** `clearOtpVerification`. */
  method ClearOtpVerification(db: Database, email: string)
    requires db.Valid()
    modifies db
    ensures db.Valid()
    ensures db.State() == old(db.State()).(otps := db.otps)
    ensures ClearEffect(old(db.otps), db.otps, email)
  {
    LatestExists(db.otps, email, true);
    if HasRecord(db.otps, email, true) {
      var id :| IsLatest(db.otps, email, true, id);
      db.otps := db.otps - {id};
    }
  }

  /** `deleteByExpiresAtBefore(now)`: the records whose expiry is before `now`
      are gone; every other record is kept unchanged. */
  function WithoutExpired(otps: map<OtpId, Otp>, now: int): (r: map<OtpId, Otp>)
    ensures forall id :: id in r <==> id in otps && !IsExpired(otps[id], now)
    ensures forall id :: id in r ==> r[id] == otps[id]
  {
    map id | id in otps && otps[id].expiresAt >= now :: otps[id]
  }

  /** `cleanupExpiredOtps`. */
  method CleanupExpiredOtps(db: Database, now: int)
    requires db.Valid()
    modifies db
    ensures db.Valid()
    ensures db.State() == old(db.State()).(otps := WithoutExpired(old(db.otps), now))
  {
    db.otps := WithoutExpired(db.otps, now);
  }

  /** After a cleanup no stored record has expired, and a record that was
      usable is still there. */
  lemma CleanupKeepsValid(otps: map<OtpId, Otp>, now: int, id: OtpId)
    ensures id in WithoutExpired(otps, now) ==> !IsExpired(WithoutExpired(otps, now)[id], now)
    ensures id in otps && IsValid(otps[id], now) ==> id in WithoutExpired(otps, now)
  {
  }
}
