/** GET and PUT /api/user/profile: the signed-in user's profile fields, read with `''`
    for an absent field and written back trimmed. */
module ProfileApi {
  import opened Wrappers
  import opened Json
  import opened Http
  import opened Text
  import opened Records
  import opened Seqs
  import OtpModel
  import OtpFlow

  const UnauthorizedText := "Unauthorized"
  const ProfileUpdated := "Profile updated successfully"

  /** The JSON body GET answers with, and PUT echoes. */
  datatype Profile = Profile(email: string, fullName: string, mobileNumber: string, profilePictureUrl: string)

  datatype SavedProfile = SavedProfile(message: string, profile: Profile)

  /** `x || ''` on an optional string field. */
  function OrEmpty(v: Option<string>): (r: string)
    ensures v.Some? ==> r == v.value
    ensures v.None? ==> r == ""
  {
    if v.Some? then v.value else ""
  }

  /** `User.findById(decoded.userId)`: the position of the document with that id. */
  function FindById(users: seq<Account>, id: UserId): (r: Option<nat>)
    ensures r.Some? ==> r.value < |users| && users[r.value].id == id
    ensures r.None? ==> forall k :: 0 <= k < |users| ==> users[k].id != id
  {
    FirstIndex(users, (a: Account) => a.id == id)
  }

  /** `getUserFromRequest`: `token` is `None` for an absent or empty cookie, otherwise what
      `jwt.verify` made of it. The position of the user document, or `None` for `null`. */
  function UserFromRequest(users: seq<Account>, token: Option<TokenCheck>): Option<nat> {
    match token
    case None => None
    case Some(Rejected) => None
    case Some(Accepted(None)) => None
    case Some(Accepted(Some(id))) => FindById(users, id)
  }

  /** A user is found exactly for a verified token that names the id of a stored user. */
  lemma GateSpec(users: seq<Account>, token: Option<TokenCheck>)
    ensures var r := UserFromRequest(users, token);
            && (r.Some? ==> r.value < |users| && token == Some(Accepted(Some(users[r.value].id))))
            && (r.None? <==>
                  || token.None? || token.value.Rejected? || token.value.userId.None?
                  || forall k :: 0 <= k < |users| ==> users[k].id != token.value.userId.value)
  {
  }

  function View(a: Account): Profile {
    Profile(a.email, OrEmpty(a.fullName), OrEmpty(a.mobileNumber), OrEmpty(a.profilePictureUrl))
  }

  /** GET /api/user/profile. */
  function Get(users: seq<Account>, token: Option<TokenCheck>): Response<Profile> {
    match UserFromRequest(users, token)
    case None => Failure(Unauthorized, UnauthorizedText)
    case Some(k) => Reply(Success, View(users[k]))
  }

  /** GET answers 401 unless the token names a stored user, and then shows that user's
      email with `''` for each profile field the document lacks. */
  lemma GetSpec(users: seq<Account>, token: Option<TokenCheck>)
    ensures Get(users, token).Failure? ==> Get(users, token) == Failure(Unauthorized, UnauthorizedText)
    ensures Get(users, token).Reply? ==>
              var p := Get(users, token).payload;
              && Get(users, token).status == Success
              && exists k :: 0 <= k < |users| && token == Some(Accepted(Some(users[k].id)))
                   && p.email == users[k].email
                   && p.fullName == (if users[k].fullName.Some? then users[k].fullName.value else "")
                   && p.mobileNumber == (if users[k].mobileNumber.Some? then users[k].mobileNumber.value else "")
                   && p.profilePictureUrl == (if users[k].profilePictureUrl.Some? then users[k].profilePictureUrl.value else "")
  {
    GateSpec(users, token);
  }

  /** One editable field under PUT: an omitted field takes the destructuring default `''`,
      a string is trimmed, any other JSON value keeps the stored value. */
  function FieldUpdate(v: Value, current: Option<string>): Option<string> {
    match v
    case Missing => Some("")
    case Str(s) => Some(Trim(s))
    case Other(_, _) => current
  }

  /** The user document after PUT's three assignments. */
  function Edited(a: Account, fullName: Value, mobileNumber: Value, profilePictureUrl: Value): Account {
    a.(fullName := FieldUpdate(fullName, a.fullName),
       mobileNumber := FieldUpdate(mobileNumber, a.mobileNumber),
       profilePictureUrl := FieldUpdate(profilePictureUrl, a.profilePictureUrl))
  }

  datatype PutOutcome = PutOutcome(response: Response<SavedProfile>, users: seq<Account>)

  /** PUT /api/user/profile, with the three fields saved as assigned. */
  function Update(users: seq<Account>, token: Option<TokenCheck>, fullName: Value, mobileNumber: Value,
               profilePictureUrl: Value): PutOutcome
  {
    match UserFromRequest(users, token)
    case None => PutOutcome(Failure(Unauthorized, UnauthorizedText), users)
    case Some(k) =>
      var edited := Edited(users[k], fullName, mobileNumber, profilePictureUrl);
      PutOutcome(Reply(Success, SavedProfile(ProfileUpdated, View(edited))), users[k := edited])
  }

  /** The shown value of a field after PUT: cleared when omitted, trimmed when a string,
      unchanged otherwise. */
  predicate ShownAfter(v: Value, before: string, after: string) {
    match v
    case Missing => after == ""
    case Str(s) => after == Trim(s)
    case Other(_, _) => after == before
  }

  /** PUT answers 401 exactly when GET does; otherwise it edits the caller's document only,
      each field as `FieldUpdate` says, never the email, and its reply is what a later GET
      with the same token shows. */
  lemma UpdateThenGet(users: seq<Account>, token: Option<TokenCheck>, fullName: Value, mobileNumber: Value,
                   profilePictureUrl: Value)
    ensures var o := Update(users, token, fullName, mobileNumber, profilePictureUrl);
            && (o.response.Failure? <==> Get(users, token).Failure?)
            && (o.response.Failure? ==> o.users == users && o.response.status == Unauthorized)
            && |o.users| == |users|
            && (o.response.Reply? ==>
                  var before := Get(users, token).payload;
                  var after := o.response.payload.profile;
                  && Get(o.users, token) == Reply(Success, after)
                  && after.email == before.email
                  && ShownAfter(fullName, before.fullName, after.fullName)
                  && ShownAfter(mobileNumber, before.mobileNumber, after.mobileNumber)
                  && ShownAfter(profilePictureUrl, before.profilePictureUrl, after.profilePictureUrl)
                  && exists k :: 0 <= k < |users| && token == Some(Accepted(Some(users[k].id)))
                       && forall j :: 0 <= j < |users| && j != k ==> o.users[j] == users[j])
  {
    var o := Update(users, token, fullName, mobileNumber, profilePictureUrl);
    var r := UserFromRequest(users, token);
    if r.Some? {
      var k := r.value;
      var edited := Edited(users[k], fullName, mobileNumber, profilePictureUrl);
      assert o.users == users[k := edited];
      FindByIdUpdated(users, k, edited);
      assert UserFromRequest(o.users, token) == Some(k);
    }
  }

  /** Replacing a document by one with the same id keeps `findById` on the same position. */
  lemma FindByIdUpdated(users: seq<Account>, k: nat, a: Account)
    requires k < |users| && a.id == users[k].id
    requires FindById(users, a.id) == Some(k)
    ensures FindById(users[k := a], a.id) == Some(k)
  {
    FirstIndexUpdated(users, (b: Account) => b.id == a.id, k, a);
  }

  // ---------------------------------------------------------------------------------------
  // The schema as written

  /** What `user.save()` writes under models/User.ts as written: the schema declares only
      `email`, `password` and `createdAt`, and Mongoose's default strict mode drops the
      assigned `fullName`, `mobileNumber` and `profilePictureUrl`. */
  function SavedAsWritten(a: Account): Account {
    a.(fullName := None, mobileNumber := None, profilePictureUrl := None)
  }

  /** PUT as it behaves with models/User.ts as written: the reply is built from the edited
      in-memory document, the store keeps only the schema's paths. */
  function PutAsWritten(users: seq<Account>, token: Option<TokenCheck>, fullName: Value, mobileNumber: Value,
                        profilePictureUrl: Value): PutOutcome
  {
    match UserFromRequest(users, token)
    case None => PutOutcome(Failure(Unauthorized, UnauthorizedText), users)
    case Some(k) =>
      var edited := Edited(users[k], fullName, mobileNumber, profilePictureUrl);
      PutOutcome(Reply(Success, SavedProfile(ProfileUpdated, View(edited))), users[k := SavedAsWritten(edited)])
  }

  /** With the schema as written, a saved name is echoed but a later GET shows it empty:
      the round trip of `UpdateThenGet` fails for every non-blank name. */
  lemma PutAsWrittenLosesName(users: seq<Account>, id: UserId, name: string)
    requires FindById(users, id).Some?
    requires !AllSpace(name)
    ensures var token := Some(Accepted(Some(id)));
            var o := PutAsWritten(users, token, Str(name), Missing, Missing);
            && o.response.Reply?
            && o.response.payload.profile.fullName == Trim(name) != ""
            && Get(o.users, token).Reply?
            && Get(o.users, token).payload.fullName == ""
  {
    var token := Some(Accepted(Some(id)));
    var k := FindById(users, id).value;
    var edited := Edited(users[k], Str(name), Missing, Missing);
    TrimEmptyIffAllSpace(name);
    FindByIdUpdated(users, k, SavedAsWritten(edited));
    assert UserFromRequest(PutAsWritten(users, token, Str(name), Missing, Missing).users, token) == Some(k);
  }

  /** Sign-up as it behaves with models/User.ts as written: `User.create` keeps only the
      schema's paths, so the new account has no profile fields. */
  function SignupAsWritten(otps: seq<OtpModel.OtpRecord>, users: seq<Account>, email: Value, password: Value,
                           fullName: string, mobileNumber: string, now: int, production: bool): OtpFlow.SignupOutcome
  {
    var o := OtpFlow.Register(otps, users, email, password, fullName, mobileNumber, now, production);
    if |o.users| == |users| + 1 then o.(users := users + [SavedAsWritten(o.users[|users|])]) else o
  }

  /** An account appended under an id no stored account has is where `findById` finds it. */
  lemma FindByIdAppended(users: seq<Account>, a: Account)
    requires forall k :: 0 <= k < |users| ==> users[k].id != a.id
    ensures FindById(users + [a], a.id) == Some(|users|)
  {
    var extended := users + [a];
    assert extended[|users|] == a;
    assert forall k :: 0 <= k < |users| ==> extended[k] == users[k];
  }

  /** With the profile fields in the schema, a GET with the session cookie sign-up sets
      shows the new account's normalised email and the name and mobile number it was
      given. */
  lemma SignupThenGet(otps: seq<OtpModel.OtpRecord>, users: seq<Account>, email: string, password: string,
                      fullName: string, mobileNumber: string, now: int, production: bool, i: nat)
    requires OtpModel.Valid(otps) && email != "" && |password| >= OtpFlow.MinPasswordLength
    requires OtpFlow.FindAccount(users, OtpModel.NormaliseEmail(email)).None?
    requires i < |otps| && otps[i].email == OtpModel.NormaliseEmail(email) && otps[i].verified
    requires !OtpModel.IsExpired(otps[i], now)
    ensures var o := OtpFlow.Register(otps, users, Str(email), Str(password), fullName, mobileNumber, now, production);
            && o.response.Reply?
            && Get(o.users, Some(Accepted(Some(o.response.payload.cookie.token.userId))))
               == Reply(Success, Profile(OtpModel.NormaliseEmail(email), fullName, mobileNumber, ""))
  {
    var o := OtpFlow.Register(otps, users, Str(email), Str(password), fullName, mobileNumber, now, production);
    OtpFlow.RegisterCreatesAccount(otps, users, email, password, fullName, mobileNumber, now, production, i);
    var added := o.users[|users|];
    assert o.users == users + [added];
    assert forall k :: 0 <= k < |users| ==> users[k].id == OtpFlow.AccountIds(users)[k];
    FindByIdAppended(users, added);
  }

  /** With the schema as written, the same GET right after sign-up shows every profile
      field empty, whatever name and mobile number the sign-up body carried. */
  lemma SignupAsWrittenLosesName(otps: seq<OtpModel.OtpRecord>, users: seq<Account>, email: string, password: string,
                                 fullName: string, mobileNumber: string, now: int, production: bool, i: nat)
    requires OtpModel.Valid(otps) && email != "" && |password| >= OtpFlow.MinPasswordLength
    requires OtpFlow.FindAccount(users, OtpModel.NormaliseEmail(email)).None?
    requires i < |otps| && otps[i].email == OtpModel.NormaliseEmail(email) && otps[i].verified
    requires !OtpModel.IsExpired(otps[i], now)
    ensures var o := SignupAsWritten(otps, users, Str(email), Str(password), fullName, mobileNumber, now, production);
            && o.response.Reply?
            && Get(o.users, Some(Accepted(Some(o.response.payload.cookie.token.userId))))
               == Reply(Success, Profile(OtpModel.NormaliseEmail(email), "", "", ""))
  {
    var r := OtpFlow.Register(otps, users, Str(email), Str(password), fullName, mobileNumber, now, production);
    OtpFlow.RegisterCreatesAccount(otps, users, email, password, fullName, mobileNumber, now, production, i);
    var o := SignupAsWritten(otps, users, Str(email), Str(password), fullName, mobileNumber, now, production);
    var added := SavedAsWritten(r.users[|users|]);
    assert o.users == users + [added];
    assert forall k :: 0 <= k < |users| ==> users[k].id == OtpFlow.AccountIds(users)[k];
    FindByIdAppended(users, added);
  }

  /** The user collection as the profile route sees it. */
  class UsersDb {
    var users: seq<Account>

    constructor (users: seq<Account>)
      ensures this.users == users
    {
      this.users := users;
    }

    /** PUT /api/user/profile: load the user, assign the three fields, save. */
    method Put(token: Option<TokenCheck>, fullName: Value, mobileNumber: Value, profilePictureUrl: Value)
      returns (response: Response<SavedProfile>)
      modifies this`users
      ensures PutOutcome(response, users) == Update(old(users), token, fullName, mobileNumber, profilePictureUrl)
    {
      var found := UserFromRequest(users, token);
      if found.None? {
        return Failure(Unauthorized, UnauthorizedText);
      }
      var k := found.value;
      var user := users[k];
      user := user.(fullName := if fullName.Str? then Some(Trim(fullName.s)) else if fullName.Missing? then Some("") else user.fullName);
      user := user.(mobileNumber := if mobileNumber.Str? then Some(Trim(mobileNumber.s)) else if mobileNumber.Missing? then Some("") else user.mobileNumber);
      user := user.(profilePictureUrl := if profilePictureUrl.Str? then Some(Trim(profilePictureUrl.s)) else if profilePictureUrl.Missing? then Some("") else user.profilePictureUrl);
      users := users[k := user];
      response := Reply(Success, SavedProfile(ProfileUpdated, View(user)));
    }
  }
}
