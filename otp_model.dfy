/** The `Otp` document. Time is a whole number of seconds supplied by the
    caller in place of `LocalDateTime.now()`. */
module OtpModel {

  type OtpId = string

  datatype Otp = Otp(
    id: OtpId,
    email: string,
    code: string,
    verified: bool,
    createdAt: int,
    expiresAt: int)

  const SECONDS_PER_MINUTE := 60
  /** `OTP_VALIDITY_MINUTES`, also the builder default of `expiresAt`. */
  const VALIDITY_MINUTES := 10

  /** A record built at `now` without explicit times: `createdAt` defaults to
      `now` and `expiresAt` to ten minutes later. */
  function BuildOtp(id: OtpId, email: string, code: string, verified: bool, now: int): (o: Otp)
    ensures o.id == id && o.email == email && o.code == code && o.verified == verified
    ensures o.createdAt == now && o.expiresAt - o.createdAt == 600
  {
    Otp(id, email, code, verified, now, now + VALIDITY_MINUTES * SECONDS_PER_MINUTE)
  }

  /** `isExpired()`: the current time is strictly after `expiresAt`. */
  predicate IsExpired(o: Otp, now: int): (b: bool)
    ensures o.expiresAt == o.createdAt + 600 ==> (b <==> now - o.createdAt > 600)
  {
    now > o.expiresAt
  }

  /** `isValid()`: neither expired nor verified. */
  predicate IsValid(o: Otp, now: int): (b: bool)
    ensures o.verified ==> !b
    ensures o.expiresAt == o.createdAt + 600 && b ==> now - o.createdAt <= 600
  {
    !IsExpired(o, now) && !o.verified
  }

  /** A freshly built record is usable for exactly ten minutes: it is not
      expired up to and including `expiresAt`, and expired at every later time. */
  lemma ExpiryWindow(id: OtpId, email: string, code: string, now: int, t: int)
    ensures var o := BuildOtp(id, email, code, false, now);
            o.createdAt == now && o.expiresAt == now + 600
            && (now <= t <= now + 600 ==> IsValid(o, t))
            && (t > now + 600 ==> IsExpired(o, t) && !IsValid(o, t))
  {
  }
}
