/** The sign-up flow over any sequence of requests: the three routes plus the TTL index of
    models/OTP.ts deleting expired codes in the background. A code for an email goes
    absent, issued, verified, consumed (absent again), and only the listed requests move
    it along. */
module OtpLifecycle {
  import opened Wrappers
  import opened Json
  import opened Http
  import opened Text
  import opened Seqs
  import opened OtpModel
  import opened Records
  import opened OtpFlow

  datatype AuthState = AuthState(otps: seq<OtpRecord>, users: seq<Account>)

  ghost predicate Inv(st: AuthState) {
    Valid(st.otps) && AccountsValid(st.users)
  }

  /** One request to a route, with what the environment supplies to it, or one pass of the
      TTL index at time `now`. */
  datatype Request =
    | SendCode(email: Value, mailConfigured: bool, code: string, mail: MailResult, now: int)
    | CheckCode(email: Value, otp: Value, now: int)
    | CreateAccount(email: Value, password: Value, fullName: string, mobileNumber: string, now: int)
    | ExpirySweep(now: int)

  /** The TTL index (`expires: 300` on `createdAt`) removes the records past their lifetime. */
  function Sweep(s: seq<OtpRecord>, now: int): seq<OtpRecord> {
    Filter(s, (x: OtpRecord) => !IsExpired(x, now))
  }

  function Step(st: AuthState, r: Request, production: bool): AuthState {
    match r
    case SendCode(email, configured, code, mail, now) =>
      st.(otps := Issue(st.otps, email, configured, code, now, mail, production).otps)
    case CheckCode(email, otp, now) =>
      st.(otps := Verify(st.otps, email, otp, now).otps)
    case CreateAccount(email, password, fullName, mobileNumber, now) =>
      var o := Register(st.otps, st.users, email, password, fullName, mobileNumber, now, production);
      AuthState(o.otps, o.users)
    case ExpirySweep(now) =>
      st.(otps := Sweep(st.otps, now))
  }

  function Run(st: AuthState, rs: seq<Request>, production: bool): AuthState
    decreases |rs|
  {
    if rs == [] then st else Run(Step(st, rs[0], production), rs[1..], production)
  }

  /** Where the code for an email stands. */
  datatype Phase = Absent | Issued | Verified

  function PhaseOf(s: seq<OtpRecord>, key: string): Phase {
    match Lookup(s, key)
    case None => Absent
    case Some(r) => if r.verified then Verified else Issued
  }

  /** The normalised email a request is about, if it is about one. */
  function RequestKey(r: Request): Option<string> {
    match r
    case SendCode(email, _, _, _, _) => if email.Str? then Some(NormaliseEmail(email.s)) else None
    case CheckCode(email, _, _) => if email.Str? then Some(NormaliseEmail(email.s)) else None
    case CreateAccount(email, _, _, _, _) => if email.Str? then Some(NormaliseEmail(email.s)) else None
    case ExpirySweep(_) => None
  }

  predicate IssuesFor(r: Request, key: string) {
    r.SendCode? && RequestKey(r) == Some(key)
  }

  /** Every request keeps both collections' invariants. */
  lemma StepKeepsInv(st: AuthState, r: Request, production: bool)
    requires Inv(st)
    ensures Inv(Step(st, r, production))
  {
    match r
    case SendCode(email, configured, code, mail, now) =>
      IssueKeepsValid(st.otps, email, configured, code, now, mail, production);
    case CheckCode(email, otp, now) =>
      VerifyKeepsValid(st.otps, email, otp, now);
    case CreateAccount(email, password, fullName, mobileNumber, now) =>
      RegisterKeepsValid(st.otps, st.users, email, password, fullName, mobileNumber, now, production);
    case ExpirySweep(now) =>
      FilterKeepsValid(st.otps, (x: OtpRecord) => !IsExpired(x, now));
  }

  /** After any sequence of requests no email has two codes, no stored code has used up its
      attempts, and no two accounts share an email. */
  lemma {:induction false} RunKeepsInv(st: AuthState, rs: seq<Request>, production: bool)
    requires Inv(st)
    ensures Inv(Run(st, rs, production))
    decreases |rs|
  {
    if rs != [] {
      StepKeepsInv(st, rs[0], production);
      RunKeepsInv(Step(st, rs[0], production), rs[1..], production);
    }
  }

  /** Removing records never makes an email findable. */
  lemma FilterKeepsAbsent(s: seq<OtpRecord>, p: OtpRecord -> bool, key: string)
    requires Lookup(s, key) == None
    ensures Lookup(Filter(s, p), key) == None
  {
  }

  lemma RemoveKeepsAbsent(s: seq<OtpRecord>, i: nat, key: string)
    requires Lookup(s, key) == None
    ensures Lookup(RemoveAt(s, i), key) == None
  {
    if i < |s| {
      assert forall x: OtpRecord :: x in RemoveAt(s, i) ==> x in s by {
        RemoveAtShifts(s, i);
      }
    }
  }

  /** A code request changes nothing outside the normalised email it names. */
  lemma SendKeepsOtherKeys(s: seq<OtpRecord>, email: Value, configured: bool, code: string, now: int,
                           mail: MailResult, production: bool)
    requires Valid(s)
    ensures var o := Issue(s, email, configured, code, now, mail, production);
            && (email.Str? ==> forall e :: e != NormaliseEmail(email.s) ==> Lookup(o.otps, e) == Lookup(s, e))
            && (!email.Str? ==> o.otps == s)
  {
    if email.IsNonEmptyString() && configured {
      var key := NormaliseEmail(email.s);
      WithoutEmailKeepsOthers(s, key);
      if key != "" && code != "" {
        IssueInstallsFreshCode(s, email, code, now, mail, production);
      }
    }
  }

  lemma CheckKeepsAbsent(s: seq<OtpRecord>, email: Value, otp: Value, now: int, key: string)
    requires Valid(s) && Lookup(s, key) == None
    ensures Lookup(Verify(s, email, otp, now).otps, key) == None
  {
    VerifyKeepsValid(s, email, otp, now);
    if email.IsNonEmptyString() && otp.IsNonEmptyString() && NormaliseEmail(email.s) == key {
      VerifyUnknownEmail(s, email, otp, now);
    }
  }

  lemma RegisterKeepsAbsent(otps: seq<OtpRecord>, users: seq<Account>, email: Value, password: Value,
                            fullName: string, mobileNumber: string, now: int, production: bool, key: string)
    requires Valid(otps) && AccountsValid(users) && Lookup(otps, key) == None
    ensures Lookup(Register(otps, users, email, password, fullName, mobileNumber, now, production).otps, key) == None
  {
    RegisterKeepsValid(otps, users, email, password, fullName, mobileNumber, now, production);
    if email.Str? && NormaliseEmail(email.s) == key {
      assert FindFirst(otps, key) == None;
    }
  }

  lemma SendOtherKeepsAbsent(s: seq<OtpRecord>, email: Value, configured: bool, code: string, now: int,
                             mail: MailResult, production: bool, key: string)
    requires Valid(s) && Lookup(s, key) == None
    requires !(email.Str? && NormaliseEmail(email.s) == key)
    ensures Lookup(Issue(s, email, configured, code, now, mail, production).otps, key) == None
  {
    SendKeepsOtherKeys(s, email, configured, code, now, mail, production);
  }

  /** Only a code request for the email itself takes it out of the absent phase. */
  lemma StepLeavesAbsentOnlyBySend(st: AuthState, r: Request, production: bool, key: string)
    requires Inv(st) && PhaseOf(st.otps, key) == Absent
    ensures !IssuesFor(r, key) ==> PhaseOf(Step(st, r, production).otps, key) == Absent
  {
    if !IssuesFor(r, key) {
      match r
      case SendCode(email, configured, code, mail, now) =>
        SendOtherKeepsAbsent(st.otps, email, configured, code, now, mail, production, key);
      case CheckCode(email, otp, now) =>
        CheckKeepsAbsent(st.otps, email, otp, now, key);
      case CreateAccount(email, password, fullName, mobileNumber, now) =>
        RegisterKeepsAbsent(st.otps, st.users, email, password, fullName, mobileNumber, now, production, key);
      case ExpirySweep(now) =>
        FilterKeepsAbsent(st.otps, (x: OtpRecord) => !IsExpired(x, now), key);
    }
  }

  /** Removing records never changes the record an email finds, unless it removes it. */
  lemma FilterLookup(s: seq<OtpRecord>, p: OtpRecord -> bool, key: string)
    requires Valid(s)
    ensures Lookup(Filter(s, p), key).Some? ==> Lookup(Filter(s, p), key) == Lookup(s, key)
  {
    var t := Filter(s, p);
    if Lookup(t, key).Some? {
      var x := Lookup(t, key).value;
      assert x in s;
      var y := Lookup(s, key).value;
      var a :| 0 <= a < |s| && s[a] == x;
      var b :| 0 <= b < |s| && s[b] == y;
      assert a == b;
    }
  }

  lemma SendNeverVerifies(s: seq<OtpRecord>, email: Value, configured: bool, code: string, now: int,
                          mail: MailResult, production: bool, key: string)
    requires Valid(s)
    ensures PhaseOf(Issue(s, email, configured, code, now, mail, production).otps, key) == Verified
            ==> PhaseOf(s, key) == Verified
  {
    SendKeepsOtherKeys(s, email, configured, code, now, mail, production);
    if email.Str? && NormaliseEmail(email.s) == key {
      if !email.IsNonEmptyString() {
        IssueRejectsMalformed(s, email, configured, code, now, mail, production);
      } else if !configured {
        IssueNeedsTransport(s, email, code, now, mail, production);
      } else {
        WithoutEmailKeepsOthers(s, key);
        if key != "" && code != "" {
          IssueInstallsFreshCode(s, email, code, now, mail, production);
        }
      }
    }
  }

  lemma CheckVerifiesOnlyRightCode(s: seq<OtpRecord>, email: Value, otp: Value, now: int, key: string)
    requires Valid(s)
    ensures PhaseOf(s, key) != Verified && PhaseOf(Verify(s, email, otp, now).otps, key) == Verified
            ==> && email.Str? && NormaliseEmail(email.s) == key
                && Lookup(s, key).Some? && otp == Str(Lookup(s, key).value.otp)
                && !IsExpired(Lookup(s, key).value, now)
  {
    VerifyKeepsValid(s, email, otp, now);
    if email.IsNonEmptyString() && otp.IsNonEmptyString() && NormaliseEmail(email.s) == key {
      match FindFirst(s, key) {
        case None =>
        case Some(i) =>
          LookupFindsStored(s, i);
          assert s[i] in s;
          VerifyExpiry(s, i, email, otp, now);
          if !IsExpired(s[i], now) && otp.s != s[i].otp {
            VerifyWrongCode(s, i, email, otp, now);
          }
      }
    }
  }

  lemma RegisterNeverVerifies(otps: seq<OtpRecord>, users: seq<Account>, email: Value, password: Value,
                              fullName: string, mobileNumber: string, now: int, production: bool, key: string)
    requires Valid(otps) && AccountsValid(users)
    ensures PhaseOf(Register(otps, users, email, password, fullName, mobileNumber, now, production).otps, key) == Verified
            ==> PhaseOf(otps, key) == Verified
  {
    RegisterKeepsValid(otps, users, email, password, fullName, mobileNumber, now, production);
    RegisterConsumesVerifiedCode(otps, users, email, password, fullName, mobileNumber, now, production);
  }

  /** A code becomes verified only through a check request for its email carrying the
      stored code while it is fresh. */
  lemma StepVerifiesOnlyOnRightCode(st: AuthState, r: Request, production: bool, key: string)
    requires Inv(st)
    ensures PhaseOf(st.otps, key) != Verified && PhaseOf(Step(st, r, production).otps, key) == Verified
            ==> && r.CheckCode? && RequestKey(r) == Some(key)
                && Lookup(st.otps, key).Some? && r.otp == Str(Lookup(st.otps, key).value.otp)
                && !IsExpired(Lookup(st.otps, key).value, r.now)
  {
    match r
    case SendCode(email, configured, code, mail, now) =>
      SendNeverVerifies(st.otps, email, configured, code, now, mail, production, key);
    case CheckCode(email, otp, now) =>
      CheckVerifiesOnlyRightCode(st.otps, email, otp, now, key);
    case CreateAccount(email, password, fullName, mobileNumber, now) =>
      RegisterNeverVerifies(st.otps, st.users, email, password, fullName, mobileNumber, now, production, key);
    case ExpirySweep(now) =>
      FilterLookup(st.otps, (x: OtpRecord) => !IsExpired(x, now), key);
  }

  /** An account for an email appears only through a sign-up for that email while its code
      is verified, and the sign-up consumes the code. */
  lemma StepCreatesAccountOnlyWhenVerified(st: AuthState, r: Request, production: bool, key: string)
    requires Inv(st)
    ensures FindAccount(st.users, key).None? && FindAccount(Step(st, r, production).users, key).Some?
            ==> && r.CreateAccount? && RequestKey(r) == Some(key)
                && PhaseOf(st.otps, key) == Verified && PhaseOf(Step(st, r, production).otps, key) == Absent
  {
    if r.CreateAccount? {
      var o := Register(st.otps, st.users, r.email, r.password, r.fullName, r.mobileNumber, r.now, production);
      assert Step(st, r, production) == AuthState(o.otps, o.users);
      RegisterConsumesVerifiedCode(st.otps, st.users, r.email, r.password, r.fullName, r.mobileNumber, r.now, production);
    }
  }

  /** As long as nobody asks for a code for an email, it has none. */
  lemma {:induction false} RunWithoutSendStaysAbsent(st: AuthState, rs: seq<Request>, production: bool, key: string)
    requires Inv(st) && PhaseOf(st.otps, key) == Absent
    requires forall i :: 0 <= i < |rs| ==> !IssuesFor(rs[i], key)
    ensures PhaseOf(Run(st, rs, production).otps, key) == Absent
    decreases |rs|
  {
    if rs != [] {
      StepKeepsInv(st, rs[0], production);
      StepLeavesAbsentOnlyBySend(st, rs[0], production, key);
      RunWithoutSendStaysAbsent(Step(st, rs[0], production), rs[1..], production, key);
    }
  }

  /** Without a code request for an email no account for it can be created: sign-up is
      gated on the emailed code. */
  lemma {:induction false} RunWithoutSendCreatesNoAccount(st: AuthState, rs: seq<Request>, production: bool, key: string)
    requires Inv(st) && PhaseOf(st.otps, key) == Absent && FindAccount(st.users, key).None?
    requires forall i :: 0 <= i < |rs| ==> !IssuesFor(rs[i], key)
    ensures FindAccount(Run(st, rs, production).users, key).None?
    decreases |rs|
  {
    if rs != [] {
      StepKeepsInv(st, rs[0], production);
      StepLeavesAbsentOnlyBySend(st, rs[0], production, key);
      StepCreatesAccountOnlyWhenVerified(st, rs[0], production, key);
      RunWithoutSendCreatesNoAccount(Step(st, rs[0], production), rs[1..], production, key);
    }
  }

  /** A check against a store holding a single fresh record for the email. */
  lemma CheckSingleRecord(r: OtpRecord, email: string, otp: string, now: int)
    requires email != "" && otp != "" && NormaliseEmail(email) == r.email
    requires !IsExpired(r, now) && r.attempts < MaxAttempts
    ensures var o := Verify([r], Str(email), Str(otp), now);
            && (otp != r.otp && r.attempts + 1 < MaxAttempts ==>
                  o == Outcome(Failure(BadRequest, AttemptsLeftText(MaxAttempts - (r.attempts + 1))), [r.(attempts := r.attempts + 1)]))
            && (otp != r.otp && r.attempts + 1 == MaxAttempts ==> o == Outcome(Failure(BadRequest, AttemptsExhausted), []))
            && (otp == r.otp ==> o == Outcome(Reply(Success, CodeVerified), [r.(verified := true)]))
  {
    assert FindFirst([r], r.email) == Some(0);
  }

  /** The replies a wrong code gets, spelled out. */
  lemma AttemptsLeftWording()
    ensures AttemptsLeftText(2) == "Invalid code. 2 attempt(s) left."
    ensures AttemptsLeftText(1) == "Invalid code. 1 attempt(s) left."
  {
    assert DecimalString(2) == "2" && DecimalString(1) == "1";
  }

  /** Three wrong codes lock an email out: the replies count down the attempts left, the
      third deletes the record, and the right code is then no longer accepted. */
  lemma WrongCodesLockOut(email: string, code: string, wrong: string, now: int)
    requires IsNormalised(email) && email != "" && code != "" && wrong != "" && wrong != code
    ensures var e := Str(email);
            var sent := Issue([], e, true, code, now, Delivered, false);
            var v1 := Verify(sent.otps, e, Str(wrong), now + 1000);
            var v2 := Verify(v1.otps, e, Str(wrong), now + 2000);
            var v3 := Verify(v2.otps, e, Str(wrong), now + 3000);
            var v4 := Verify(v3.otps, e, Str(code), now + 4000);
            && sent.response == Reply(Success, CodeSent)
            && v1.response == Failure(BadRequest, "Invalid code. 2 attempt(s) left.")
            && v2.response == Failure(BadRequest, "Invalid code. 1 attempt(s) left.")
            && v3.response == Failure(BadRequest, AttemptsExhausted)
            && v4.response == Failure(BadRequest, CodeNotFound)
            && v4.otps == []
  {
    var e := Str(email);
    NormalisedIsFixed(email);
    var r0 := OtpRecord(email, code, now, 0, false);
    var sent := Issue([], e, true, code, now, Delivered, false);
    assert sent == Outcome(Reply(Success, CodeSent), [r0]) by {
      IssueSteps([], e, code, now, Delivered, false);
      assert WithoutEmail([], email) == [];
    }
    var v1 := Verify([r0], e, Str(wrong), now + 1000);
    assert v1 == Outcome(Failure(BadRequest, AttemptsLeftText(2)), [r0.(attempts := 1)]) by {
      CheckSingleRecord(r0, email, wrong, now + 1000);
    }
    var v2 := Verify([r0.(attempts := 1)], e, Str(wrong), now + 2000);
    assert v2 == Outcome(Failure(BadRequest, AttemptsLeftText(1)), [r0.(attempts := 2)]) by {
      CheckSingleRecord(r0.(attempts := 1), email, wrong, now + 2000);
    }
    var v3 := Verify([r0.(attempts := 2)], e, Str(wrong), now + 3000);
    assert v3 == Outcome(Failure(BadRequest, AttemptsExhausted), []) by {
      CheckSingleRecord(r0.(attempts := 2), email, wrong, now + 3000);
    }
    AttemptsLeftWording();
  }
}
