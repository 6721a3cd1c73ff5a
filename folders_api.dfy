/** GET and POST /api/folders: listing the caller's folders, oldest first, and creating
    one with a trimmed, non-blank name. */
module FoldersApi {
  import opened Wrappers
  import opened Http
  import opened Text
  import opened Seqs
  import opened Records

  const NotAuthenticated := "Not authenticated"
  const InvalidToken := "Invalid or expired token"
  const NameRequired := "Folder name is required"
  const DefaultColour := "#3b82f6"

  /** `.sort({ createdAt: 1 })`: the oldest first, so the key is the negated time. */
  function FolderRank(f: Folder): Rank {
    Rank(-f.createdAt, 0)
  }

  /** GET /api/folders. */
  function List(store: seq<Folder>, session: Session): Response<seq<Folder>> {
    match session
    case NoToken => Failure(Unauthorized, NotAuthenticated)
    case BadToken => Failure(Unauthorized, InvalidToken)
    case Caller(userId) => Reply(Success, SortByRank(Filter(store, (f: Folder) => f.userId == userId), FolderRank))
  }

  /** Both token failures get 401; a verified caller gets exactly their own folders, the
      oldest first. */
  lemma ListSpec(store: seq<Folder>, session: Session)
    ensures var r := List(store, session);
            && (r.Status() == Unauthorized <==> !session.Caller?)
            && (session.Caller? ==> r.Reply? && r.status == Success)
    ensures session.Caller? ==>
              var folders := List(store, session).payload;
              && (forall f :: multiset(folders)[f] == if f.userId == session.userId then multiset(store)[f] else 0)
              && (forall i, j :: 0 <= i < j < |folders| ==> folders[i].createdAt <= folders[j].createdAt)
  {
    if session.Caller? {
      var folders := List(store, session).payload;
      forall i, j | 0 <= i < j < |folders| ensures folders[i].createdAt <= folders[j].createdAt {
        assert !Outranks(FolderRank(folders[j]), FolderRank(folders[i]));
      }
    }
  }

  datatype CreateOutcome = CreateOutcome(response: Response<Folder>, folders: seq<Folder>)

  function FolderIds(folders: seq<Folder>): seq<Id> {
    seq(|folders|, k requires 0 <= k < |folders| => folders[k].id)
  }

  /** POST /api/folders with the body `{ name, color }`. The stored colour also passes the
      schema's `trim` setter. */
  function Create(store: seq<Folder>, session: Session, name: Option<string>, color: Option<string>, now: int)
    : CreateOutcome
  {
    match session
    case NoToken => CreateOutcome(Failure(Unauthorized, NotAuthenticated), store)
    case BadToken => CreateOutcome(Failure(Unauthorized, InvalidToken), store)
    case Caller(userId) =>
      if name.None? || name.value == "" || Trim(name.value) == "" then
        CreateOutcome(Failure(BadRequest, NameRequired), store)
      else
        var folder := Folder(FreshId(FolderIds(store)), userId, Trim(name.value),
                             Trim(OrDefault(color, DefaultColour)), now);
        CreateOutcome(Reply(Created, folder), store + [folder])
  }

  /** A folder is created exactly for a verified caller with a name that is not blank; it
      is appended with a new id, the caller as owner, the name trimmed (so it neither
      starts nor ends with whitespace and is not empty) and the default colour when none
      is given. Every failure leaves the collection as it was. */
  lemma CreateSpec(store: seq<Folder>, session: Session, name: Option<string>, color: Option<string>, now: int)
    ensures var o := Create(store, session, name, color, now);
            && (o.response.Reply? <==> session.Caller? && name.Some? && !AllSpace(name.value))
            && (o.response.Failure? ==> o.folders == store)
            && (!session.Caller? ==> o.response.Status() == Unauthorized)
            && (session.Caller? && (name.None? || AllSpace(name.value)) ==>
                  o.response == Failure(BadRequest, NameRequired))
            && (o.response.Reply? ==>
                  var f := o.response.payload;
                  && o.response.status == Created
                  && o.folders == store + [f]
                  && (forall k :: 0 <= k < |store| ==> store[k].id != f.id)
                  && f.userId == session.userId
                  && f.name == Trim(name.value) && f.name != ""
                  && !IsSpace(f.name[0]) && !IsSpace(f.name[|f.name| - 1])
                  && f.color == Trim(OrDefault(color, DefaultColour))
                  && (color.None? || color.value == "" ==> f.color == DefaultColour)
                  && f.createdAt == now)
  {
    if name.Some? {
      TrimEmptyIffAllSpace(name.value);
    }
    TrimOfTrimmed(DefaultColour);
    var ids := FolderIds(store);
    assert forall k :: 0 <= k < |store| ==> ids[k] == store[k].id;
  }

  /** The folder collection. */
  class FoldersDb {
    var folders: seq<Folder>

    constructor ()
      ensures folders == []
    {
      folders := [];
    }

    /** POST /api/folders: check the token, validate the name, append the folder. */
    method Post(session: Session, name: Option<string>, color: Option<string>, now: int)
      returns (response: Response<Folder>)
      modifies this`folders
      ensures CreateOutcome(response, folders) == Create(old(folders), session, name, color, now)
    {
      if session.NoToken? {
        return Failure(Unauthorized, NotAuthenticated);
      }
      if session.BadToken? {
        return Failure(Unauthorized, InvalidToken);
      }
      if name.None? || name.value == "" || Trim(name.value) == "" {
        return Failure(BadRequest, NameRequired);
      }
      var folder := Folder(FreshId(FolderIds(folders)), session.userId, Trim(name.value),
                           Trim(OrDefault(color, DefaultColour)), now);
      folders := folders + [folder];
      response := Reply(Created, folder);
    }
  }
}
