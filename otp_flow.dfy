/** The three sign-up requests as functions from the stores before the request to the reply
    and the stores after it: issuing a code (app/api/auth/send-otp/route.ts), checking it
    (app/api/auth/verify-otp/route.ts) and consuming it to create the account
    (app/api/auth/signup/route.ts). Each request runs as one atomic step. */
module OtpFlow {
  import opened Wrappers
  import opened Json
  import opened Http
  import opened Text
  import opened Seqs
  import opened OtpModel
  import opened Records

  const EmailRequired := "Email is required"
  const TransportMissing := "Email transport not configured"
  const InternalError := "Internal server error"
  const CodeSent := "OTP sent successfully"
  const CodeAndEmailRequired := "Email and OTP are required"
  const CodeNotFound := "OTP not found or expired"
  const CodeExpired := "OTP expired"
  const AttemptsExhausted := "Maximum attempts reached. Please request a new code."
  const CodeVerified := "OTP verified. Continue to create your password."
  const CredentialsRequired := "Email and password are required"
  const PasswordTooShort := "Password must be at least 6 characters"
  const AccountExists := "User already exists with this email"
  const EmailNotVerified := "Email not verified. Please verify OTP first."
  const VerifiedCodeExpired := "OTP expired. Please request a new code."
  const AccountCreated := "User created successfully"

  const MinPasswordLength := 6
  const BcryptRounds := 10
  /** `expiresIn: '7d'` and the cookie's `maxAge: 60 * 60 * 24 * 7`, in seconds. */
  const SessionSeconds := 60 * 60 * 24 * 7

  /** What `transporter.sendMail` did: delivered, or threw with an error message. */
  datatype MailResult = Delivered | MailError(message: string)

  /** The reply to a failed delivery, which shows the transport's message outside
      production (`mailError?.message || 'unknown error'`). */
  function MailFailureText(message: string, production: bool): string {
    if production then "Failed to send OTP"
    else "Failed to send OTP: " + (if message == "" then "unknown error" else message)
  }

  function AttemptsLeftText(left: nat): string {
    "Invalid code. " + DecimalString(left) + " attempt(s) left."
  }

  /** The reply of a code request and the code collection after it. */
  datatype Outcome = Outcome(response: Response<string>, otps: seq<OtpRecord>)

  /** POST /api/auth/send-otp, with `code` the freshly generated code, `mailConfigured`
      whether `EMAIL_USER` and `EMAIL_PASS` are set, and `mail` what delivery did. */
  function Issue(s: seq<OtpRecord>, email: Value, mailConfigured: bool, code: string, now: int,
                 mail: MailResult, production: bool): Outcome
  {
    if !email.IsNonEmptyString() then Outcome(Failure(BadRequest, EmailRequired), s)
    else if !mailConfigured then Outcome(Failure(ServerError, TransportMissing), s)
    else
      var key := NormaliseEmail(email.s);
      var cleared := WithoutEmail(s, key);
      match CreateRecord(key, code, now)
      case None => Outcome(Failure(ServerError, InternalError), cleared)
      case Some(record) =>
        var stored := cleared + [record];
        match mail
        case Delivered => Outcome(Reply(Success, CodeSent), stored)
        case MailError(message) => Outcome(Failure(ServerError, MailFailureText(message, production)), stored)
  }

  /** POST /api/auth/verify-otp. */
  function Verify(s: seq<OtpRecord>, email: Value, otp: Value, now: int): Outcome {
    if !email.IsNonEmptyString() || !otp.IsNonEmptyString() then
      Outcome(Failure(BadRequest, CodeAndEmailRequired), s)
    else
      match FindFirst(s, NormaliseEmail(email.s))
      case None => Outcome(Failure(BadRequest, CodeNotFound), s)
      case Some(i) => CheckRecord(s, i, otp.s, now)
  }

  /** The route's checks on the record `findOne` returned, at position `i`, in its order:
      age, used-up attempts, then the code. */
  function CheckRecord(s: seq<OtpRecord>, i: nat, code: string, now: int): Outcome
    requires i < |s|
  {
    var record := s[i];
    if IsExpired(record, now) then Outcome(Failure(BadRequest, CodeExpired), RemoveAt(s, i))
    else if record.attempts >= MaxAttempts then Outcome(Failure(BadRequest, AttemptsExhausted), RemoveAt(s, i))
    else if record.otp != code then
      var attempts := record.attempts + 1;
      if attempts >= MaxAttempts then Outcome(Failure(BadRequest, AttemptsExhausted), RemoveAt(s, i))
      else Outcome(Failure(BadRequest, AttemptsLeftText(MaxAttempts - attempts)), s[i := record.(attempts := attempts)])
    else Outcome(Reply(Success, CodeVerified), s[i := record.(verified := true)])
  }

  /** The signed session token: its payload and its `iat` and `exp` claims in seconds. */
  datatype SessionToken = SessionToken(userId: UserId, email: string, issuedAt: int, expiresAt: int)

  datatype Cookie = Cookie(name: string, token: SessionToken, httpOnly: bool, secure: bool,
                           sameSite: string, maxAge: nat, path: string)

  datatype SignupReply = SignupReply(message: string, email: string, cookie: Cookie)

  datatype SignupOutcome = SignupOutcome(response: Response<SignupReply>, otps: seq<OtpRecord>, users: seq<Account>)

  /** The session cookie the sign-up reply sets for a token signed at `now` (milliseconds). */
  function SessionCookie(id: UserId, email: string, now: int, production: bool): (c: Cookie)
    ensures c.name == "token" && c.httpOnly && c.sameSite == "lax" && c.path == "/"
    ensures c.secure == production && c.maxAge == SessionSeconds
    ensures c.token.userId == id && c.token.email == email
    ensures c.token.expiresAt - c.token.issuedAt == c.maxAge
    ensures c.token.issuedAt * 1000 <= now < c.token.issuedAt * 1000 + 1000
  {
    var issuedAt := now / 1000;
    Cookie("token", SessionToken(id, email, issuedAt, issuedAt + SessionSeconds), true, production, "lax", SessionSeconds, "/")
  }

  /** `User.findOne({ email })`: the position of the account with that email. */
  function FindAccount(users: seq<Account>, email: string): (r: Option<nat>)
    ensures r.Some? ==> r.value < |users| && users[r.value].email == email
    ensures r.None? ==> forall k :: 0 <= k < |users| ==> users[k].email != email
  {
    FirstIndex(users, (a: Account) => a.email == email)
  }

  function AccountIds(users: seq<Account>): (r: seq<Id>)
    ensures |r| == |users| && forall k :: 0 <= k < |users| ==> r[k] == users[k].id
  {
    seq(|users|, k requires 0 <= k < |users| => users[k].id)
  }

  /** The user collection's invariant: emails are stored normalised (the schema's setters)
      and are unique (its unique index), and so are ids. */
  ghost predicate AccountsValid(users: seq<Account>) {
    (forall k :: 0 <= k < |users| ==> IsNormalised(users[k].email))
    && (forall j, k :: 0 <= j < k < |users| ==> users[j].email != users[k].email && users[j].id != users[k].id)
  }

  /** POST /api/auth/signup. `fullName` and `mobileNumber` are the body's values, `''` when
      absent. */
  function Register(otps: seq<OtpRecord>, users: seq<Account>, email: Value, password: Value,
                    fullName: string, mobileNumber: string, now: int, production: bool): SignupOutcome
  {
    if !email.Truthy() || !password.Truthy() then
      SignupOutcome(Failure(BadRequest, CredentialsRequired), otps, users)
    else if password.LengthBelow(MinPasswordLength) then
      SignupOutcome(Failure(BadRequest, PasswordTooShort), otps, users)
    else if !email.Str? then
      SignupOutcome(Failure(ServerError, InternalError), otps, users)
    else
      var key := NormaliseEmail(email.s);
      if FindAccount(users, key).Some? then SignupOutcome(Failure(Conflict, AccountExists), otps, users)
      else match FindFirst(otps, key)
        case None => SignupOutcome(Failure(BadRequest, EmailNotVerified), otps, users)
        case Some(i) => ConsumeCode(otps, users, i, key, password, fullName, mobileNumber, now, production)
  }

  /** The sign-up route's steps once `findOne` found the email's code at position `i`:
      it must be verified and fresh, and it is deleted when the account is created. */
  function ConsumeCode(otps: seq<OtpRecord>, users: seq<Account>, i: nat, key: string, password: Value,
                       fullName: string, mobileNumber: string, now: int, production: bool): SignupOutcome
    requires i < |otps|
  {
    if !otps[i].verified then SignupOutcome(Failure(BadRequest, EmailNotVerified), otps, users)
    else if IsExpired(otps[i], now) then
      SignupOutcome(Failure(BadRequest, VerifiedCodeExpired), RemoveAt(otps, i), users)
    else if !password.Str? || key == "" then
      SignupOutcome(Failure(ServerError, InternalError), otps, users)
    else
      var account := Account(FreshId(AccountIds(users)), key, Bcrypt(password.s, BcryptRounds),
                             Some(fullName), Some(mobileNumber), None, now);
      var reply := SignupReply(AccountCreated, key, SessionCookie(account.id, key, now, production));
      SignupOutcome(Reply(Created, reply), RemoveAt(otps, i), users + [account])
  }

  // ---------------------------------------------------------------------------------------
  // Issuing a code

  /** A missing, empty or non-string email is refused before the store is touched. */
  lemma IssueRejectsMalformed(s: seq<OtpRecord>, email: Value, mailConfigured: bool, code: string,
                              now: int, mail: MailResult, production: bool)
    requires !email.IsNonEmptyString()
    ensures Issue(s, email, mailConfigured, code, now, mail, production) == Outcome(Failure(BadRequest, EmailRequired), s)
  {
  }

  /** Without mail credentials the route fails before the store is touched. */
  lemma IssueNeedsTransport(s: seq<OtpRecord>, email: Value, code: string, now: int, mail: MailResult, production: bool)
    requires email.IsNonEmptyString()
    ensures Issue(s, email, false, code, now, mail, production) == Outcome(Failure(ServerError, TransportMissing), s)
  {
  }

  /** What issuing does to the store and the reply once the email is usable: the records
      of the key are replaced by a fresh one, and the reply depends only on delivery. */
  lemma IssueSteps(s: seq<OtpRecord>, email: Value, code: string, now: int, mail: MailResult, production: bool)
    requires email.IsNonEmptyString() && NormaliseEmail(email.s) != "" && code != ""
    ensures var o := Issue(s, email, true, code, now, mail, production);
            var key := NormaliseEmail(email.s);
            && o.otps == WithoutEmail(s, key) + [OtpRecord(key, code, now, 0, false)]
            && o.response == match mail
                             case Delivered => Reply(Success, CodeSent)
                             case MailError(m) => Failure(ServerError, MailFailureText(m, production))
  {
    NormaliseIdempotent(email.s);
  }

  lemma IssueInstallsFreshCode(s: seq<OtpRecord>, email: Value, code: string, now: int,
                               mail: MailResult, production: bool)
    requires Valid(s) && email.IsNonEmptyString() && NormaliseEmail(email.s) != "" && code != ""
    ensures var o := Issue(s, email, true, code, now, mail, production);
            var key := NormaliseEmail(email.s);
            && Valid(o.otps)
            && |Holders(o.otps, key)| == 1
            && Lookup(o.otps, key) == Some(OtpRecord(key, code, now, 0, false))
            && (forall e :: e != key ==> Lookup(o.otps, e) == Lookup(s, e))
            && (o.response == Reply(Success, CodeSent) <==> mail.Delivered?)
            && (mail.MailError? ==> o.response == Failure(ServerError, MailFailureText(mail.message, production)))
  {
    var key := NormaliseEmail(email.s);
    IssueSteps(s, email, code, now, mail, production);
    var record := OtpRecord(key, code, now, 0, false);
    assert StoredRecordOk(record) by {
      NormaliseGivesNormalised(email.s);
    }
    ReplaceEmailRecords(s, record);
  }

  /** Every code request keeps the collection invariant. */
  lemma IssueKeepsValid(s: seq<OtpRecord>, email: Value, mailConfigured: bool, code: string, now: int,
                        mail: MailResult, production: bool)
    requires Valid(s)
    ensures Valid(Issue(s, email, mailConfigured, code, now, mail, production).otps)
  {
    if email.IsNonEmptyString() && mailConfigured {
      var key := NormaliseEmail(email.s);
      WithoutEmailKeepsOthers(s, key);
      NormaliseIdempotent(email.s);
      if key != "" && code != "" {
        IssueInstallsFreshCode(s, email, code, now, mail, production);
      }
    }
  }

  /** An email that is blank after trimming passes the guard, but the schema's `required`
      check fails on the empty key: the reply is 500 and the (valid) store is unchanged. */
  lemma IssueBlankEmail(s: seq<OtpRecord>, email: Value, code: string, now: int, mail: MailResult, production: bool)
    requires Valid(s) && email.IsNonEmptyString() && NormaliseEmail(email.s) == ""
    ensures Issue(s, email, true, code, now, mail, production) == Outcome(Failure(ServerError, InternalError), s)
  {
    FilterAll(s, (x: OtpRecord) => x.email != "");
  }

  /** Two spellings of an address that normalise alike are the same request. */
  lemma IssueKeyedByNormalisedEmail(s: seq<OtpRecord>, a: string, b: string, code: string, now: int,
                                    mail: MailResult, production: bool)
    requires a != "" && b != "" && NormaliseEmail(a) == NormaliseEmail(b)
    ensures Issue(s, Str(a), true, code, now, mail, production) == Issue(s, Str(b), true, code, now, mail, production)
  {
  }

  // ---------------------------------------------------------------------------------------
  // Checking a code

  /** A missing, empty or non-string email or code is refused and nothing changes. */
  lemma VerifyRejectsMalformed(s: seq<OtpRecord>, email: Value, otp: Value, now: int)
    requires !email.IsNonEmptyString() || !otp.IsNonEmptyString()
    ensures Verify(s, email, otp, now) == Outcome(Failure(BadRequest, CodeAndEmailRequired), s)
  {
  }

  /** No record under the normalised email: "OTP not found or expired", nothing changes. */
  lemma VerifyUnknownEmail(s: seq<OtpRecord>, email: Value, otp: Value, now: int)
    requires email.IsNonEmptyString() && otp.IsNonEmptyString()
    requires Lookup(s, NormaliseEmail(email.s)) == None
    ensures Verify(s, email, otp, now) == Outcome(Failure(BadRequest, CodeNotFound), s)
  {
  }

  /** The reply is "OTP expired" exactly when the record is more than 300000 ms old (a
      record exactly 300000 ms old is still checked), and then the record is gone. */
  lemma VerifyExpiry(s: seq<OtpRecord>, i: nat, email: Value, otp: Value, now: int)
    requires Valid(s) && i < |s| && email.IsNonEmptyString() && otp.IsNonEmptyString()
    requires s[i].email == NormaliseEmail(email.s)
    ensures var o := Verify(s, email, otp, now);
            && (o.response == Failure(BadRequest, CodeExpired) <==> s[i].createdAt < now - ExpiryMs)
            && (s[i].createdAt < now - ExpiryMs ==> Lookup(o.otps, s[i].email) == None)
  {
    LookupFindsStored(s, i);
    var o := Verify(s, email, otp, now);
    if IsExpired(s[i], now) {
      assert o == Outcome(Failure(BadRequest, CodeExpired), RemoveAt(s, i));
      RemoveKeepsOthers(s, i);
    } else if otp.s != s[i].otp && s[i].attempts + 1 < MaxAttempts {
      var left := MaxAttempts - (s[i].attempts + 1);
      assert o.response == Failure(BadRequest, AttemptsLeftText(left));
      assert AttemptsLeftText(left)[0] == 'I';
    }
  }

  /** A record whose attempts are used up is deleted and refused whatever code comes with
      it. */
  lemma VerifyExhausted(s: seq<OtpRecord>, i: nat, email: Value, otp: Value, now: int)
    requires UniqueEmails(s) && i < |s| && email.IsNonEmptyString() && otp.IsNonEmptyString()
    requires s[i].email == NormaliseEmail(email.s) && !IsExpired(s[i], now) && s[i].attempts >= MaxAttempts
    ensures Verify(s, email, otp, now) == Outcome(Failure(BadRequest, AttemptsExhausted), RemoveAt(s, i))
  {
    LookupFindsStored(s, i);
  }

  /** A wrong code costs exactly one attempt: the third wrong code deletes the record,
      before that the record is kept with one more attempt and the reply says how many
      are left. */
  lemma VerifyWrongCode(s: seq<OtpRecord>, i: nat, email: Value, otp: Value, now: int)
    requires Valid(s) && i < |s| && email.IsNonEmptyString() && otp.IsNonEmptyString()
    requires s[i].email == NormaliseEmail(email.s) && !IsExpired(s[i], now) && otp.s != s[i].otp
    ensures var o := Verify(s, email, otp, now);
            var n := s[i].attempts + 1;
            && (n == MaxAttempts ==> o.response == Failure(BadRequest, AttemptsExhausted) && Lookup(o.otps, s[i].email) == None)
            && (n < MaxAttempts ==>
                  o.response == Failure(BadRequest, AttemptsLeftText(MaxAttempts - n))
                  && Lookup(o.otps, s[i].email) == Some(s[i].(attempts := n)))
  {
    LookupFindsStored(s, i);
    var n := s[i].attempts + 1;
    var o := Verify(s, email, otp, now);
    if n >= MaxAttempts {
      assert o == Outcome(Failure(BadRequest, AttemptsExhausted), RemoveAt(s, i));
      RemoveKeepsOthers(s, i);
    } else {
      assert o == Outcome(Failure(BadRequest, AttemptsLeftText(MaxAttempts - n)), s[i := s[i].(attempts := n)]);
      UpdateKeepsOthers(s, i, s[i].(attempts := n));
    }
  }
  /** The right code marks the record verified, keeps its attempts and does not delete it. */
  lemma VerifyRightCode(s: seq<OtpRecord>, i: nat, email: Value, otp: Value, now: int)
    requires Valid(s) && i < |s| && email.IsNonEmptyString() && otp.IsNonEmptyString()
    requires s[i].email == NormaliseEmail(email.s) && !IsExpired(s[i], now) && otp.s == s[i].otp
    ensures var o := Verify(s, email, otp, now);
            && o.response == Reply(Success, CodeVerified)
            && Lookup(o.otps, s[i].email) == Some(s[i].(verified := true))
            && |o.otps| == |s|
  {
    LookupFindsStored(s, i);
    UpdateKeepsOthers(s, i, s[i].(verified := true));
  }

  /** Checking a code keeps the collection invariant (in particular no stored record
      reaches three attempts) and never changes a record of another email. */
  lemma VerifyKeepsValid(s: seq<OtpRecord>, email: Value, otp: Value, now: int)
    requires Valid(s)
    ensures var o := Verify(s, email, otp, now);
            && Valid(o.otps)
            && (email.IsNonEmptyString() ==> OnlyKeyChanged(s, o.otps, NormaliseEmail(email.s)))
            && (!email.IsNonEmptyString() ==> o.otps == s)
  {
    if email.IsNonEmptyString() && otp.IsNonEmptyString() {
      var found := FindFirst(s, NormaliseEmail(email.s));
      if found.Some? {
        CheckRecordKeepsValid(s, found.value, otp.s, now);
      }
    }
  }

  /** The record checks keep the invariant and touch no other email's record. */
  lemma CheckRecordKeepsValid(s: seq<OtpRecord>, i: nat, code: string, now: int)
    requires Valid(s) && i < |s|
    ensures Valid(CheckRecord(s, i, code, now).otps)
    ensures OnlyKeyChanged(s, CheckRecord(s, i, code, now).otps, s[i].email)
  {
    var record := s[i];
    if IsExpired(record, now) || record.attempts >= MaxAttempts
       || (record.otp != code && record.attempts + 1 >= MaxAttempts) {
      RemoveKeepsOthers(s, i);
    } else {
      assert record in s;
      var x := if record.otp != code then record.(attempts := record.attempts + 1) else record.(verified := true);
      assert CheckRecord(s, i, code, now).otps == s[i := x];
      UpdateKeepsOthers(s, i, x);
    }
  }

  // ---------------------------------------------------------------------------------------
  // Creating the account

  lemma RegisterRejectsMissing(otps: seq<OtpRecord>, users: seq<Account>, email: Value, password: Value,
                               fullName: string, mobileNumber: string, now: int, production: bool)
    requires !email.Truthy() || !password.Truthy()
    ensures Register(otps, users, email, password, fullName, mobileNumber, now, production)
         == SignupOutcome(Failure(BadRequest, CredentialsRequired), otps, users)
  {
  }

  /** A password whose `length` is below six, a string or an array alike, is refused. */
  lemma RegisterRejectsShortPassword(otps: seq<OtpRecord>, users: seq<Account>, email: Value, password: Value,
                                     fullName: string, mobileNumber: string, now: int, production: bool)
    requires email.Truthy() && password.Truthy() && password.LengthBelow(MinPasswordLength)
    ensures Register(otps, users, email, password, fullName, mobileNumber, now, production)
         == SignupOutcome(Failure(BadRequest, PasswordTooShort), otps, users)
  {
  }

  /** An existing account wins over everything the code store holds: 409, nothing
      changes, even when a verified code is waiting. */
  lemma RegisterExistingAccount(otps: seq<OtpRecord>, users: seq<Account>, email: string, password: string,
                                fullName: string, mobileNumber: string, now: int, production: bool, k: nat)
    requires email != "" && |password| >= MinPasswordLength
    requires k < |users| && users[k].email == NormaliseEmail(email)
    ensures Register(otps, users, Str(email), Str(password), fullName, mobileNumber, now, production)
         == SignupOutcome(Failure(Conflict, AccountExists), otps, users)
  {
  }

  /** Without a verified code for the normalised email the sign-up is refused and nothing
      changes. */
  lemma RegisterNeedsVerifiedCode(otps: seq<OtpRecord>, users: seq<Account>, email: string, password: string,
                                  fullName: string, mobileNumber: string, now: int, production: bool)
    requires email != "" && |password| >= MinPasswordLength
    requires FindAccount(users, NormaliseEmail(email)).None?
    requires match Lookup(otps, NormaliseEmail(email)) case None => true case Some(r) => !r.verified
    ensures Register(otps, users, Str(email), Str(password), fullName, mobileNumber, now, production)
         == SignupOutcome(Failure(BadRequest, EmailNotVerified), otps, users)
  {
  }

  /** A verified code older than five minutes is deleted and the sign-up refused. */
  lemma RegisterStaleCode(otps: seq<OtpRecord>, users: seq<Account>, email: string, password: string,
                          fullName: string, mobileNumber: string, now: int, production: bool, i: nat)
    requires Valid(otps) && email != "" && |password| >= MinPasswordLength
    requires FindAccount(users, NormaliseEmail(email)).None?
    requires i < |otps| && otps[i].email == NormaliseEmail(email) && otps[i].verified && IsExpired(otps[i], now)
    ensures var o := Register(otps, users, Str(email), Str(password), fullName, mobileNumber, now, production);
            && o.response == Failure(BadRequest, VerifiedCodeExpired)
            && o.users == users
            && Lookup(o.otps, otps[i].email) == None
  {
    var key := NormaliseEmail(email);
    LookupFindsStored(otps, i);
    assert Register(otps, users, Str(email), Str(password), fullName, mobileNumber, now, production)
        == ConsumeCode(otps, users, i, key, Str(password), fullName, mobileNumber, now, production)
        == SignupOutcome(Failure(BadRequest, VerifiedCodeExpired), RemoveAt(otps, i), users);
    RemoveKeepsOthers(otps, i);
  }

  /** A verified, fresh code turns into exactly one new account under the normalised email
      with the bcrypt hash of the password, the code is consumed, and the reply carries a
      seven-day session cookie. */
  lemma RegisterCreatesAccount(otps: seq<OtpRecord>, users: seq<Account>, email: string, password: string,
                               fullName: string, mobileNumber: string, now: int, production: bool, i: nat)
    requires Valid(otps) && email != "" && |password| >= MinPasswordLength
    requires FindAccount(users, NormaliseEmail(email)).None?
    requires i < |otps| && otps[i].email == NormaliseEmail(email) && otps[i].verified && !IsExpired(otps[i], now)
    ensures var o := Register(otps, users, Str(email), Str(password), fullName, mobileNumber, now, production);
            var key := NormaliseEmail(email);
            && o.response.Reply? && o.response.status == Created
            && |o.users| == |users| + 1 && o.users[..|users|] == users
            && o.users[|users|].email == key
            && o.users[|users|].password == Bcrypt(password, BcryptRounds)
            && o.users[|users|].fullName == Some(fullName) && o.users[|users|].mobileNumber == Some(mobileNumber)
            && o.users[|users|].profilePictureUrl == None
            && o.users[|users|].id !in AccountIds(users)
            && Lookup(o.otps, key) == None
            && (forall e :: e != key ==> Lookup(o.otps, e) == Lookup(otps, e))
            && o.response.payload.email == key
            && o.response.payload.cookie.maxAge == 604800
            && o.response.payload.cookie.token.userId == o.users[|users|].id
            && o.response.payload.cookie == SessionCookie(o.users[|users|].id, key, now, production)
  {
    var key := NormaliseEmail(email);
    LookupFindsStored(otps, i);
    var added := Account(FreshId(AccountIds(users)), key, Bcrypt(password, BcryptRounds),
                         Some(fullName), Some(mobileNumber), None, now);
    var reply := SignupReply(AccountCreated, key, SessionCookie(added.id, key, now, production));
    assert Register(otps, users, Str(email), Str(password), fullName, mobileNumber, now, production)
        == SignupOutcome(Reply(Created, reply), RemoveAt(otps, i), users + [added]);
    RemoveKeepsOthers(otps, i);
  }

  /** Signing up keeps both collections' invariants: no two accounts ever share an email
      or an id. */
  lemma RegisterKeepsValid(otps: seq<OtpRecord>, users: seq<Account>, email: Value, password: Value,
                           fullName: string, mobileNumber: string, now: int, production: bool)
    requires Valid(otps) && AccountsValid(users)
    ensures var o := Register(otps, users, email, password, fullName, mobileNumber, now, production);
            && Valid(o.otps) && AccountsValid(o.users) && |users| <= |o.users| <= |users| + 1
            && (email.Str? ==> OnlyKeyChanged(otps, o.otps, NormaliseEmail(email.s)))
            && (!email.Str? ==> o.otps == otps)
  {
    if email.Truthy() && password.Truthy() && !(password.LengthBelow(MinPasswordLength)) && email.Str? {
      var key := NormaliseEmail(email.s);
      var found := FindFirst(otps, key);
      if FindAccount(users, key).None? && found.Some? {
        NormaliseGivesNormalised(email.s);
        ConsumeCodeKeepsValid(otps, users, found.value, key, password, fullName, mobileNumber, now, production);
      }
    }
  }

  /** The steps after the code is found keep both invariants and touch no other email's
      code. */
  lemma ConsumeCodeKeepsValid(otps: seq<OtpRecord>, users: seq<Account>, i: nat, key: string, password: Value,
                              fullName: string, mobileNumber: string, now: int, production: bool)
    requires Valid(otps) && AccountsValid(users) && i < |otps| && otps[i].email == key
    requires IsNormalised(key) && FindAccount(users, key).None?
    ensures var o := ConsumeCode(otps, users, i, key, password, fullName, mobileNumber, now, production);
            && Valid(o.otps) && AccountsValid(o.users) && |users| <= |o.users| <= |users| + 1
            && OnlyKeyChanged(otps, o.otps, key)
  {
    var o := ConsumeCode(otps, users, i, key, password, fullName, mobileNumber, now, production);
    if otps[i].verified && (IsExpired(otps[i], now) || (password.Str? && key != "")) {
      RemoveKeepsOthers(otps, i);
      if !IsExpired(otps[i], now) {
        var added := Account(FreshId(AccountIds(users)), key, Bcrypt(password.s, BcryptRounds),
                             Some(fullName), Some(mobileNumber), None, now);
        assert o.users == users + [added];
        AddAccountKeepsValid(users, added);
      }
    }
  }

  /** Appending an account under a new normalised email and a new id keeps the user
      collection's invariant. */
  lemma AddAccountKeepsValid(users: seq<Account>, added: Account)
    requires AccountsValid(users) && IsNormalised(added.email) && added.id !in AccountIds(users)
    requires forall k :: 0 <= k < |users| ==> users[k].email != added.email
    ensures AccountsValid(users + [added])
  {
    var extended := users + [added];
    forall j, k | 0 <= j < k < |extended|
      ensures extended[j].email != extended[k].email && extended[j].id != extended[k].id
    {
      if k == |users| {
        assert AccountIds(users)[j] == users[j].id;
      }
    }
  }

  /** Sign-up either leaves the code store alone or consumes the record of its own email,
      and it adds an account only under an email whose code was verified. */
  lemma RegisterConsumesVerifiedCode(otps: seq<OtpRecord>, users: seq<Account>, email: Value, password: Value,
                                     fullName: string, mobileNumber: string, now: int, production: bool)
    requires Valid(otps)
    ensures var o := Register(otps, users, email, password, fullName, mobileNumber, now, production);
            && (email.Str? ==> o.otps == otps || Lookup(o.otps, NormaliseEmail(email.s)) == None)
            && (o.users != users ==>
                  && email.Str? && |o.users| == |users| + 1 && o.users[..|users|] == users
                  && o.users[|users|].email == NormaliseEmail(email.s)
                  && Lookup(otps, NormaliseEmail(email.s)).Some?
                  && Lookup(otps, NormaliseEmail(email.s)).value.verified
                  && Lookup(o.otps, NormaliseEmail(email.s)) == None)
  {
    var o := Register(otps, users, email, password, fullName, mobileNumber, now, production);
    if !email.Truthy() || !password.Truthy() || (password.LengthBelow(MinPasswordLength)) || !email.Str? {
      assert o.otps == otps && o.users == users;
    } else {
      var key := NormaliseEmail(email.s);
      if FindAccount(users, key).Some? {
        assert o.otps == otps && o.users == users;
      } else {
        match FindFirst(otps, key)
        case None =>
          assert o.otps == otps && o.users == users;
        case Some(i) =>
          if !otps[i].verified || (!IsExpired(otps[i], now) && (!password.Str? || key == "")) {
            assert o.otps == otps && o.users == users;
          } else if IsExpired(otps[i], now) {
            assert o.otps == RemoveAt(otps, i) && o.users == users;
            RemoveKeepsOthers(otps, i);
          } else {
            var added := Account(FreshId(AccountIds(users)), key, Bcrypt(password.s, BcryptRounds),
                                 Some(fullName), Some(mobileNumber), None, now);
            assert o.otps == RemoveAt(otps, i) && o.users == users + [added];
            RemoveKeepsOthers(otps, i);
            LookupFindsStored(otps, i);
          }
      }
    }
  }
}
