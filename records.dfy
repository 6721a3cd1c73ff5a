/** The stored documents the routes read and write (models/User.ts, models/Note.ts,
    models/File.ts, models/Folder.ts), the outcome of checking a session token, and the
    session cookie the sign-up route sets. */
module Records {
  import opened Wrappers

  /** A document's `_id`; fresh ids are drawn by `FreshId`. */
  type Id = nat
  type UserId = Id

  /** `bcrypt.hash(secret, rounds)`, kept symbolic: hashing itself is not modelled. */
  datatype PasswordHash = Bcrypt(secret: string, rounds: nat)

  /** A user document. The three profile fields are optional: an absent field reads as
      `undefined`. */
  datatype Account = Account(
    id: UserId,
    email: string,
    password: PasswordHash,
    fullName: Option<string>,
    mobileNumber: Option<string>,
    profilePictureUrl: Option<string>,
    createdAt: int)

  datatype Note = Note(
    id: Id,
    userId: UserId,
    title: string,
    content: string,
    tags: seq<string>,
    folder: string,
    isPinned: bool,
    createdAt: int,
    updatedAt: int)

  /** An uploaded file's document; `mimeType` is the schema's `type` path. */
  datatype FileItem = FileItem(
    id: Id,
    userId: UserId,
    name: string,
    url: string,
    key: string,
    mimeType: string,
    size: int,
    folder: string,
    createdAt: int)

  datatype Folder = Folder(id: Id, userId: UserId, name: string, color: string, createdAt: int)

  /** What `jwt.verify` made of the `token` cookie: it threw, or it decoded a payload whose
      `userId` may be absent. */
  datatype TokenCheck = Rejected | Accepted(userId: Option<UserId>)

  /** The `token` cookie as the notes, files and folders routes see it: absent or empty,
      present but rejected by `jwt.verify`, or verified and carrying the caller's `userId`. */
  datatype Session = NoToken | BadToken | Caller(userId: UserId)

  /** JavaScript's `v || d` on a body field that is absent or a string: an absent or empty
      value gives the default. */
  function OrDefault(v: Option<string>, d: string): (r: string)
    ensures v.Some? && v.value != "" ==> r == v.value
    ensures v.None? || v.value == "" ==> r == d
  {
    if v.Some? && v.value != "" then v.value else d
  }

  /** An id that no document in `ids` has yet, as MongoDB's generated `_id` is. */
  function FreshId(ids: seq<Id>): (r: Id)
    ensures forall k :: 0 <= k < |ids| ==> ids[k] < r
    ensures r !in ids
  {
    if ids == [] then 0
    else
      var rest := FreshId(ids[1..]);
      if ids[0] < rest then rest else ids[0] + 1
  }
}
