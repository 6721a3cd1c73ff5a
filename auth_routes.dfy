/** The three auth route handlers as steps on the database: each reads and writes the
    code and user collections in the order its source does, and its result is the one
    `OtpFlow` gives for the same request. */
module AuthRoutes {
  import opened Wrappers
  import opened Json
  import opened Http
  import opened Text
  import opened Seqs
  import opened OtpModel
  import opened Records
  import opened OtpFlow

  /** A code as `generateOtp` renders it: six decimal digits, 100000 to 999999. */
  predicate IsSixDigitCode(code: string) {
    && |code| == 6
    && (forall i :: 0 <= i < |code| ==> IsDigit(code[i]))
    && 100000 <= DecimalValue(code) <= 999999
  }

  /** `Math.floor(100000 + Math.random() * 900000).toString()`; the random draw is any
      integer of the range. */
  method GenerateOtp() returns (code: string)
    ensures IsSixDigitCode(code)
  {
    var n: nat :| 100000 <= n <= 999999;
    code := DecimalString(n);
    assert Pow10(5) == 100000 && Pow10(6) == 1000000;
    DecimalLength(n, 6);
    DecimalRoundTrip(n);
  }

  const MailSubject := "Your Signup OTP Code"

  function MailText(code: string): string {
    "Your OTP is: " + code + ". Valid for 5 minutes."
  }

  /** What the mail transport does with a message to `to`, given its subject and text. */
  type Transport = (string, string, string) -> MailResult

  /** The delivery outcome for the code mail a usable request sends. */
  function Delivery(transport: Transport, email: Value, code: string): MailResult {
    if email.Str? then transport(NormaliseEmail(email.s), MailSubject, MailText(code)) else Delivered
  }

  /** The database the auth routes use: the code collection and the user collection. */
  class AuthDb {
    var otps: seq<OtpRecord>
    var users: seq<Account>

    ghost predicate Valid()
      reads this
    {
      OtpModel.Valid(otps) && AccountsValid(users)
    }

    constructor ()
      ensures otps == [] && users == [] && Valid()
    {
      otps := [];
      users := [];
    }

    /** POST /api/auth/send-otp. */
    method SendOtp(email: Value, mailConfigured: bool, now: int, transport: Transport, production: bool)
      returns (response: Response<string>, code: string)
      modifies this`otps
      ensures email.IsNonEmptyString() && mailConfigured ==> IsSixDigitCode(code)
      ensures Outcome(response, otps)
           == Issue(old(otps), email, mailConfigured, code, now, Delivery(transport, email, code), production)
      ensures old(Valid()) ==> Valid()
    {
      code := "";
      if !email.IsNonEmptyString() {
        return Failure(BadRequest, EmailRequired), code;
      }
      if !mailConfigured {
        return Failure(ServerError, TransportMissing), code;
      }
      var key := NormaliseEmail(email.s);
      if Valid() {
        assert OtpModel.Valid(WithoutEmail(otps, key)) by {
          WithoutEmailKeepsOthers(otps, key);
        }
      }
      otps := WithoutEmail(otps, key);
      code := GenerateOtp();
      var created := CreateRecord(key, code, now);
      if created.None? {
        return Failure(ServerError, InternalError), code;
      }
      otps := otps + [created.value];
      var mail := transport(key, MailSubject, MailText(code));
      match mail {
        case Delivered =>
          response := Reply(Success, CodeSent);
        case MailError(message) =>
          response := Failure(ServerError, MailFailureText(message, production));
      }
      if old(Valid()) {
        assert OtpModel.Valid(otps) by {
          IssueInstallsFreshCode(old(otps), email, code, now, mail, production);
        }
      }
    }

    /** POST /api/auth/verify-otp. */
    method VerifyOtp(email: Value, otp: Value, now: int) returns (response: Response<string>)
      modifies this`otps
      ensures Outcome(response, otps) == Verify(old(otps), email, otp, now)
      ensures old(Valid()) ==> Valid()
    {
      if Valid() {
        assert OtpModel.Valid(Verify(otps, email, otp, now).otps) by {
          VerifyKeepsValid(otps, email, otp, now);
        }
      }
      if !email.IsNonEmptyString() || !otp.IsNonEmptyString() {
        return Failure(BadRequest, CodeAndEmailRequired);
      }
      var key := NormaliseEmail(email.s);
      var found := FindFirst(otps, key);
      if found.None? {
        return Failure(BadRequest, CodeNotFound);
      }
      response := CheckFound(found.value, otp.s, now);
    }

    /** The verify-otp route's checks on the record `findOne` returned: delete it when it
        is stale or used up, count a wrong code, mark a right one verified. */
    method CheckFound(i: nat, code: string, now: int) returns (response: Response<string>)
      requires i < |otps|
      modifies this`otps
      ensures Outcome(response, otps) == CheckRecord(old(otps), i, code, now)
    {
      var record := otps[i];
      if IsExpired(record, now) {
        otps := RemoveAt(otps, i);
        return Failure(BadRequest, CodeExpired);
      }
      if record.attempts >= MaxAttempts {
        otps := RemoveAt(otps, i);
        return Failure(BadRequest, AttemptsExhausted);
      }
      if record.otp != code {
        record := record.(attempts := record.attempts + 1);
        if record.attempts >= MaxAttempts {
          otps := RemoveAt(otps, i);
          return Failure(BadRequest, AttemptsExhausted);
        }
        otps := otps[i := record];
        return Failure(BadRequest, AttemptsLeftText(MaxAttempts - record.attempts));
      }
      record := record.(verified := true);
      otps := otps[i := record];
      response := Reply(Success, CodeVerified);
    }

    /** POST /api/auth/signup. */
    method Signup(email: Value, password: Value, fullName: string, mobileNumber: string, now: int, production: bool)
      returns (response: Response<SignupReply>)
      modifies this
      ensures SignupOutcome(response, otps, users)
           == Register(old(otps), old(users), email, password, fullName, mobileNumber, now, production)
      ensures old(Valid()) ==> Valid()
    {
      if Valid() {
        RegisterKeepsValid(otps, users, email, password, fullName, mobileNumber, now, production);
      }
      if !email.Truthy() || !password.Truthy() {
        return Failure(BadRequest, CredentialsRequired);
      }
      if password.LengthBelow(MinPasswordLength) {
        return Failure(BadRequest, PasswordTooShort);
      }
      if !email.Str? {
        return Failure(ServerError, InternalError);
      }
      var key := NormaliseEmail(email.s);
      if FindAccount(users, key).Some? {
        return Failure(Conflict, AccountExists);
      }
      var found := FindFirst(otps, key);
      if found.None? || !otps[found.value].verified {
        return Failure(BadRequest, EmailNotVerified);
      }
      var i := found.value;
      if IsExpired(otps[i], now) {
        otps := RemoveAt(otps, i);
        return Failure(BadRequest, VerifiedCodeExpired);
      }
      if !password.Str? || key == "" {
        return Failure(ServerError, InternalError);
      }
      var hash := Bcrypt(password.s, BcryptRounds);
      var account := Account(FreshId(AccountIds(users)), key, hash, Some(fullName), Some(mobileNumber), None, now);
      users := users + [account];
      otps := RemoveAt(otps, i);
      var cookie := SessionCookie(account.id, account.email, now, production);
      response := Reply(Created, SignupReply(AccountCreated, account.email, cookie));
    }
  }
}
