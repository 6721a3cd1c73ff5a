/** The one-time-code record of models/OTP.ts and the queries the auth routes run on the
    collection of such records. */
module OtpModel {
  import opened Wrappers
  import opened Text
  import opened Seqs

  /** `expires: 300` on `createdAt`, and the routes' `5 * 60 * 1000`. */
  const ExpirySeconds: nat := 300
  const ExpiryMs: nat := 5 * 60 * 1000
  /** The verification route allows three wrong codes. */
  const MaxAttempts: nat := 3

  /** A stored code; `createdAt` is in milliseconds since the epoch. */
  datatype OtpRecord = OtpRecord(email: string, otp: string, createdAt: int, attempts: int, verified: bool)

  /** `email.trim().toLowerCase()`, which is also what the schema's `lowercase` and `trim`
      setters do to a stored or queried email. */
  function NormaliseEmail(email: string): string {
    ToLower(Trim(email))
  }

  /** The shape of a normalised email: no upper-case letter and no whitespace at either
      end. */
  predicate IsNormalised(email: string) {
    && (forall i :: 0 <= i < |email| ==> !('A' <= email[i] <= 'Z'))
    && (email == "" || (!IsSpace(email[0]) && !IsSpace(email[|email| - 1])))
  }

  /** Normalising gives a normalised email that is no longer than the input. */
  lemma NormaliseGivesNormalised(email: string)
    ensures |NormaliseEmail(email)| <= |email| && IsNormalised(NormaliseEmail(email))
  {
    var t := Trim(email);
    if t != "" {
      LowerCharKeepsSpace(t[0]);
      LowerCharKeepsSpace(t[|t| - 1]);
    }
  }

  /** A normalised email is its own normalisation. */
  lemma NormalisedIsFixed(email: string)
    requires IsNormalised(email)
    ensures NormaliseEmail(email) == email
  {
    TrimOfTrimmed(email);
    assert ToLower(email) == email;
  }

  /** Normalising twice is normalising once, so the schema's setters leave the routes'
      normalised key as it is. */
  lemma NormaliseIdempotent(email: string)
    ensures NormaliseEmail(NormaliseEmail(email)) == NormaliseEmail(email)
  {
    NormaliseGivesNormalised(email);
    NormalisedIsFixed(NormaliseEmail(email));
  }

  /** `OTP.create({ email, otp })` at time `now`: the schema stores the normalised email,
      `createdAt = now`, `attempts = 0` and `verified = false`, and fails validation when a
      required field is empty. */
  function CreateRecord(email: string, code: string, now: int): (r: Option<OtpRecord>)
    ensures r.Some? <==> NormaliseEmail(email) != "" && code != ""
    ensures r.Some? ==> IsNormalised(r.value.email) && r.value.email == NormaliseEmail(email)
    ensures r.Some? ==> r.value.otp == code && r.value.createdAt == now
    ensures r.Some? ==> r.value.attempts == 0 && !r.value.verified
  {
    var key := NormaliseEmail(email);
    NormaliseGivesNormalised(email);
    if key == "" || code == "" then None
    else Some(OtpRecord(key, code, now, 0, false))
  }

  /** The routes' guard `record.createdAt.getTime() < Date.now() - 5 * 60 * 1000`. */
  predicate IsExpired(r: OtpRecord, now: int) {
    r.createdAt < now - ExpiryMs
  }

  /** `OTP.findOne({ email })`: the position of the first record for `email`. */
  function FindFirst(s: seq<OtpRecord>, email: string): (r: Option<nat>)
    ensures r.Some? ==> r.value < |s| && s[r.value].email == email
    ensures r.Some? ==> forall j :: 0 <= j < r.value ==> s[j].email != email
    ensures r.None? ==> forall j :: 0 <= j < |s| ==> s[j].email != email
  {
    FirstIndex(s, (x: OtpRecord) => x.email == email)
  }

  /** The record `OTP.findOne({ email })` returns, if any. */
  function Lookup(s: seq<OtpRecord>, email: string): (r: Option<OtpRecord>)
    ensures r.Some? ==> r.value in s && r.value.email == email
    ensures r.None? ==> forall x: OtpRecord :: x in s ==> x.email != email
  {
    match FindFirst(s, email)
    case None => None
    case Some(i) => Some(s[i])
  }

  /** `OTP.deleteMany({ email })`. */
  function WithoutEmail(s: seq<OtpRecord>, email: string): (r: seq<OtpRecord>)
    ensures forall x: OtpRecord :: x in r ==> x.email != email
    ensures forall x: OtpRecord :: x.email != email ==> multiset(r)[x] == multiset(s)[x]
  {
    Filter(s, (x: OtpRecord) => x.email != email)
  }

  /** The positions holding a record for `email`. */
  function Holders(s: seq<OtpRecord>, email: string): set<nat> {
    set i | 0 <= i < |s| && s[i].email == email
  }

  /** No email has two records: the single-record-per-email rule the issuing route keeps by
      deleting before inserting (the schema has no unique index). */
  ghost predicate UniqueEmails(s: seq<OtpRecord>) {
    forall i, j :: 0 <= i < j < |s| ==> s[i].email != s[j].email
  }

  /** A record as the routes can leave it in the collection. */
  predicate StoredRecordOk(r: OtpRecord) {
    0 <= r.attempts < MaxAttempts && IsNormalised(r.email) && r.email != ""
  }

  /** The collection invariant the three auth routes keep: every stored email is normalised
      and non-empty, no stored record has used up its attempts, and no email has two
      records. */
  ghost predicate Valid(s: seq<OtpRecord>) {
    (forall x: OtpRecord :: x in s ==> StoredRecordOk(x)) && UniqueEmails(s)
  }

  /** At most one record per email in a valid collection. */
  lemma AtMostOnePerEmail(s: seq<OtpRecord>, email: string)
    requires Valid(s)
    ensures |Holders(s, email)| <= 1
  {
    var h := Holders(s, email);
    assert forall a, b :: a in h && b in h ==> a == b;
    if h != {} {
      var i :| i in h;
      assert h == {i};
    }
  }

  /** When no email has two records, `findOne` finds the one record stored for its email. */
  lemma LookupFindsStored(s: seq<OtpRecord>, i: nat)
    requires UniqueEmails(s) && i < |s|
    ensures FindFirst(s, s[i].email) == Some(i)
    ensures Lookup(s, s[i].email) == Some(s[i])
  {
    assert forall j :: 0 <= j < i ==> s[j].email != s[i].email;
  }

  /** Removing one record keeps the others, in order. */
  lemma RemoveAtShifts(s: seq<OtpRecord>, i: nat)
    requires i < |s|
    ensures forall x: OtpRecord :: x in RemoveAt(s, i) ==> x in s
    ensures forall k :: 0 <= k < |RemoveAt(s, i)| ==> RemoveAt(s, i)[k] == s[if k < i then k else k + 1]
  {
    var r := RemoveAt(s, i);
    forall x: OtpRecord | x in r ensures x in s {
      var k :| 0 <= k < |r| && r[k] == x;
      assert r[k] == s[if k < i then k else k + 1];
    }
  }

  lemma RemovePreservesValid(s: seq<OtpRecord>, i: nat)
    requires Valid(s) && i < |s|
    ensures Valid(RemoveAt(s, i))
    ensures forall x: OtpRecord :: x in RemoveAt(s, i) ==> x.email != s[i].email
  {
    var r := RemoveAt(s, i);
    RemoveAtShifts(s, i);
    forall a, b | 0 <= a < b < |r| ensures r[a].email != r[b].email {
      var a', b' := if a < i then a else a + 1, if b < i then b else b + 1;
      assert a' < b' && r[a] == s[a'] && r[b] == s[b'];
    }
    forall x: OtpRecord | x in r ensures x.email != s[i].email {
      var k :| 0 <= k < |r| && r[k] == x;
      var k' := if k < i then k else k + 1;
      assert r[k] == s[k'] && k' != i;
    }
  }

  /** Going from `s` to `t` changed nothing another email can observe: every other email
      finds what it found before, and every record of another email is there as often as
      before. */
  ghost predicate OnlyKeyChanged(s: seq<OtpRecord>, t: seq<OtpRecord>, key: string) {
    && (forall e :: e != key ==> Lookup(t, e) == Lookup(s, e))
    && (forall x: OtpRecord :: x.email != key ==> multiset(t)[x] == multiset(s)[x])
  }

  /** `OTP.deleteOne({ _id })` on a valid collection: the record's email is no longer
      found, every other email still finds the record it found before. */
  lemma RemoveKeepsOthers(s: seq<OtpRecord>, i: nat)
    requires Valid(s) && i < |s|
    ensures Valid(RemoveAt(s, i))
    ensures Lookup(RemoveAt(s, i), s[i].email) == None
    ensures OnlyKeyChanged(s, RemoveAt(s, i), s[i].email)
    ensures multiset(RemoveAt(s, i)) == multiset(s) - multiset{s[i]}
  {
    var r := RemoveAt(s, i);
    RemovePreservesValid(s, i);
    forall e | e != s[i].email ensures Lookup(r, e) == Lookup(s, e) {
      match FindFirst(s, e)
      case None =>
        assert forall x: OtpRecord :: x in r ==> x in s;
      case Some(j) =>
        var j' := if j < i then j else j - 1;
        assert r[j'] == s[j];
        LookupFindsStored(r, j');
    }
    assert s == s[..i] + [s[i]] + s[i + 1..];
  }

  /** `record.save()` after changing fields other than the email: the record's email now
      finds the new version, every other email finds what it found before. */
  lemma UpdateKeepsOthers(s: seq<OtpRecord>, i: nat, x: OtpRecord)
    requires Valid(s) && i < |s| && x.email == s[i].email
    ensures StoredRecordOk(x) ==> Valid(s[i := x])
    ensures Lookup(s[i := x], x.email) == Some(x)
    ensures OnlyKeyChanged(s, s[i := x], x.email)
    ensures multiset(s[i := x]) == multiset(s) - multiset{s[i]} + multiset{x}
  {
    var r := s[i := x];
    assert UniqueEmails(r);
    LookupFindsStored(r, i);
    UpdateKeepsLookups(s, i, x);
    assert s == s[..i] + [s[i]] + s[i + 1..];
    assert r == s[..i] + [x] + s[i + 1..];
  }

  /** Replacing a record by one with the same email leaves every other email's lookup. */
  lemma UpdateKeepsLookups(s: seq<OtpRecord>, i: nat, x: OtpRecord)
    requires UniqueEmails(s) && i < |s| && x.email == s[i].email
    ensures forall e :: e != x.email ==> Lookup(s[i := x], e) == Lookup(s, e)
  {
    var r := s[i := x];
    assert UniqueEmails(r);
    forall e | e != x.email ensures Lookup(r, e) == Lookup(s, e) {
      match FindFirst(s, e)
      case None =>
      case Some(j) =>
        LookupFindsStored(r, j);
    }
  }

  /** Deleting records by any condition (`deleteMany`, the TTL index) keeps emails unique. */
  lemma {:induction false} FilterKeepsUnique(s: seq<OtpRecord>, p: OtpRecord -> bool)
    requires UniqueEmails(s)
    ensures UniqueEmails(Filter(s, p))
  {
    if s != [] {
      var t := Filter(s[1..], p);
      FilterKeepsUnique(s[1..], p);
      if p(s[0]) {
        assert Filter(s, p) == [s[0]] + t;
        assert forall x: OtpRecord :: x in t ==> x.email != s[0].email by {
          forall x: OtpRecord | x in t ensures x.email != s[0].email {
            assert x in s[1..];
            var j :| 0 <= j < |s[1..]| && s[1..][j] == x;
            assert s[j + 1] == x;
          }
        }
        PrependNewEmail(s[0], t);
      } else {
        assert Filter(s, p) == t;
      }
    }
  }

  lemma PrependNewEmail(h: OtpRecord, t: seq<OtpRecord>)
    requires UniqueEmails(t) && forall x: OtpRecord :: x in t ==> x.email != h.email
    ensures UniqueEmails([h] + t)
  {
    var u := [h] + t;
    forall j, k | 0 <= j < k < |u| ensures u[j].email != u[k].email {
      assert u[k] == t[k - 1] && t[k - 1] in t;
      if j > 0 {
        assert u[j] == t[j - 1];
      }
    }
  }

  /** Deleting records by any condition keeps the collection invariant. */
  lemma FilterKeepsValid(s: seq<OtpRecord>, p: OtpRecord -> bool)
    requires Valid(s)
    ensures Valid(Filter(s, p))
  {
    FilterKeepsUnique(s, p);
  }

  /** After `OTP.deleteMany({ email: key })` no record for `key` is left and every other
      email finds what it found before. */
  lemma WithoutEmailKeepsOthers(s: seq<OtpRecord>, key: string)
    requires Valid(s)
    ensures Valid(WithoutEmail(s, key))
    ensures Lookup(WithoutEmail(s, key), key) == None
    ensures forall e :: e != key ==> Lookup(WithoutEmail(s, key), e) == Lookup(s, e)
  {
    var r := WithoutEmail(s, key);
    FilterKeepsValid(s, (x: OtpRecord) => x.email != key);
    forall e | e != key ensures Lookup(r, e) == Lookup(s, e) {
      match FindFirst(s, e)
      case None =>
      case Some(j) =>
        assert s[j] in r;
        var j' :| 0 <= j' < |r| && r[j'] == s[j];
        LookupFindsStored(r, j');
    }
  }

  /** Appending a record for an email the collection does not hold. */
  lemma AppendNewEmail(t: seq<OtpRecord>, record: OtpRecord)
    requires UniqueEmails(t) && forall x: OtpRecord :: x in t ==> x.email != record.email
    ensures UniqueEmails(t + [record])
    ensures Holders(t + [record], record.email) == {|t|}
    ensures Lookup(t + [record], record.email) == Some(record)
    ensures forall e :: e != record.email ==> Lookup(t + [record], e) == Lookup(t, e)
  {
    var u := t + [record];
    assert forall j :: 0 <= j < |t| ==> u[j] == t[j] && t[j] in t;
    assert UniqueEmails(u);
    assert Holders(u, record.email) == {|t|};
    LookupFindsStored(u, |t|);
    forall e | e != record.email ensures Lookup(u, e) == Lookup(t, e) {
      match FindFirst(t, e)
      case None =>
      case Some(j) =>
        LookupFindsStored(u, j);
    }
  }

  /** `OTP.deleteMany({ email })` followed by `OTP.create(...)` for the same email: exactly
      one record for that email is left, the new one, and the other emails are unaffected. */
  lemma ReplaceEmailRecords(s: seq<OtpRecord>, record: OtpRecord)
    requires Valid(s) && StoredRecordOk(record)
    ensures var t := WithoutEmail(s, record.email) + [record];
            && Valid(t)
            && Holders(t, record.email) == {|t| - 1}
            && Lookup(t, record.email) == Some(record)
            && (forall e :: e != record.email ==> Lookup(t, e) == Lookup(s, e))
  {
    var cleared := WithoutEmail(s, record.email);
    WithoutEmailKeepsOthers(s, record.email);
    AppendNewEmail(cleared, record);
    assert forall x: OtpRecord :: x in cleared + [record] ==> x in cleared || x == record;
  }
}
