/** GET and PATCH /api/files: listing the caller's uploaded files and moving one to
    another folder. Unlike the notes and folders routes, these handlers call `jwt.verify`
    inside their outer `try`, so a token that fails verification is answered with 500. */
module FilesApi {
  import opened Wrappers
  import opened Http
  import opened Text
  import opened Seqs
  import opened Records
  import FilesPage

  const UnauthorizedText := "Unauthorized"
  const FetchFailed := "Failed to fetch files"
  const UpdateFailed := "Failed to update file"
  const FieldsRequired := "File ID and folder are required"
  const FileNotFound := "File not found"
  const AllFolders := "all"

  /** The `type` parameter: `image`, `document`, or anything else, which filters nothing. */
  datatype TypeFilter = AnyType | Images | Documents

  function TypeFilterOf(param: Option<string>): TypeFilter {
    if param == Some("image") then Images
    else if param == Some("document") then Documents
    else AnyType
  }

  /** `/^image\//` and `/^(application\/pdf|text\/)/` on the stored MIME type. */
  predicate TypeMatches(mimeType: string, kind: TypeFilter) {
    match kind
    case AnyType => true
    case Images => StartsWith(mimeType, "image/")
    case Documents => StartsWith(mimeType, "application/pdf") || StartsWith(mimeType, "text/")
  }

  /** The filter GET builds: the caller, a folder unless the parameter is absent, empty or
      "all", and a type class. */
  datatype FileQuery = FileQuery(userId: UserId, folder: Option<string>, kind: TypeFilter)

  function BuildQuery(userId: UserId, folder: Option<string>, kind: Option<string>): FileQuery {
    FileQuery(userId,
              if folder.Some? && folder.value != "" && folder.value != AllFolders then folder else None,
              TypeFilterOf(kind))
  }

  predicate Matches(f: FileItem, q: FileQuery) {
    && f.userId == q.userId
    && (q.folder.Some? ==> f.folder == q.folder.value)
    && TypeMatches(f.mimeType, q.kind)
  }

  /** GET /api/files, newest first (`.sort({ createdAt: -1 })`, the files page's order). */
  function List(store: seq<FileItem>, session: Session, folder: Option<string>, kind: Option<string>)
    : Response<seq<FileItem>>
  {
    match session
    case NoToken => Failure(Unauthorized, UnauthorizedText)
    case BadToken => Failure(ServerError, FetchFailed)
    case Caller(userId) =>
      var q := BuildQuery(userId, folder, kind);
      Reply(Success, SortByRank(Filter(store, (f: FileItem) => Matches(f, q)), FilesPage.FileRank))
  }

  /** A missing token gets 401 and a rejected one 500; a verified one gets exactly the
      caller's files in the folder and type class asked for, newest first. */
  lemma ListSpec(store: seq<FileItem>, session: Session, folder: Option<string>, kind: Option<string>)
    ensures var r := List(store, session, folder, kind);
            && (session.NoToken? <==> r.Status() == Unauthorized)
            && (session.BadToken? <==> r.Status() == ServerError)
            && (session.Caller? <==> r.Reply?)
    ensures session.Caller? ==>
              var files := List(store, session, folder, kind).payload;
              && (forall f :: multiset(files)[f] ==
                    if && f.userId == session.userId
                       && (folder.Some? && folder.value != "" && folder.value != AllFolders ==> f.folder == folder.value)
                       && (kind == Some("image") ==> StartsWith(f.mimeType, "image/"))
                       && (kind == Some("document") ==>
                             StartsWith(f.mimeType, "application/pdf") || StartsWith(f.mimeType, "text/"))
                    then multiset(store)[f] else 0)
              && (forall i, j :: 0 <= i < j < |files| ==> files[i].createdAt >= files[j].createdAt)
  {
    if session.Caller? {
      var q := BuildQuery(session.userId, folder, kind);
      var kept := Filter(store, (f: FileItem) => Matches(f, q));
      var files := List(store, session, folder, kind).payload;
      assert files == SortByRank(kept, FilesPage.FileRank);
      forall f: FileItem ensures multiset(files)[f] ==
                 if && f.userId == session.userId
                    && (folder.Some? && folder.value != "" && folder.value != AllFolders ==> f.folder == folder.value)
                    && (kind == Some("image") ==> StartsWith(f.mimeType, "image/"))
                    && (kind == Some("document") ==>
                          StartsWith(f.mimeType, "application/pdf") || StartsWith(f.mimeType, "text/"))
                 then multiset(store)[f] else 0
      {
        assert multiset(files)[f] == multiset(kept)[f];
        assert multiset(kept)[f] == if Matches(f, q) then multiset(store)[f] else 0;
      }
      forall i, j | 0 <= i < j < |files| ensures files[i].createdAt >= files[j].createdAt {
        assert !Outranks(FilesPage.FileRank(files[j]), FilesPage.FileRank(files[i]));
      }
    }
  }

  /** The `document` filter tests a prefix where the files page's icon tests equality: a
      type such as "application/pdfx" is listed as a document but drawn with the generic
      icon. */
  lemma DocumentFilterWiderThanIcon()
    ensures TypeMatches("application/pdfx", Documents)
    ensures FilesPage.FileIcon("application/pdfx") == FilesPage.GenericIcon
  {
    assert "application/pdfx"[..15] == "application/pdf";
    assert "application/pdfx"[0] != "image/"[0] && "application/pdfx"[0] != "text/"[0];
  }

  /** The first file with the id that the caller owns: `{ _id: fileId, userId }`. */
  function FindOwned(files: seq<FileItem>, id: Id, userId: UserId): (r: Option<nat>)
    ensures r.Some? ==> r.value < |files| && files[r.value].id == id && files[r.value].userId == userId
    ensures r.None? ==> forall k :: 0 <= k < |files| ==> files[k].id != id || files[k].userId != userId
  {
    FirstIndex(files, (f: FileItem) => f.id == id && f.userId == userId)
  }

  datatype MoveOutcome = MoveOutcome(response: Response<FileItem>, files: seq<FileItem>)

  /** PATCH /api/files with the body `{ fileId, folder }`; `None` or an empty string is a
      falsy field. */
  function Move(store: seq<FileItem>, session: Session, fileId: Option<Id>, folder: Option<string>): MoveOutcome {
    match session
    case NoToken => MoveOutcome(Failure(Unauthorized, UnauthorizedText), store)
    case BadToken => MoveOutcome(Failure(ServerError, UpdateFailed), store)
    case Caller(userId) =>
      if fileId.None? || folder.None? || folder.value == "" then MoveOutcome(Failure(BadRequest, FieldsRequired), store)
      else match FindOwned(store, fileId.value, userId)
        case None => MoveOutcome(Failure(NotFound, FileNotFound), store)
        case Some(k) =>
          var moved := store[k].(folder := folder.value);
          MoveOutcome(Reply(Success, moved), store[k := moved])
  }

  /** A move succeeds exactly for a verified caller naming a file they own and a
      non-empty folder; it then changes that file's folder and nothing else, and every
      failure leaves the collection as it was. */
  lemma MoveSpec(store: seq<FileItem>, session: Session, fileId: Option<Id>, folder: Option<string>)
    ensures var o := Move(store, session, fileId, folder);
            && (o.response.Reply? <==>
                  && session.Caller? && fileId.Some? && folder.Some? && folder.value != ""
                  && exists k :: 0 <= k < |store| && store[k].id == fileId.value && store[k].userId == session.userId)
            && (o.response.Failure? ==> o.files == store)
            && (session.NoToken? ==> o.response.Status() == Unauthorized)
            && (session.BadToken? ==> o.response.Status() == ServerError)
            && (session.Caller? && fileId.Some? && folder.Some? && folder.value != "" &&
                (forall k :: 0 <= k < |store| ==> store[k].id != fileId.value || store[k].userId != session.userId) ==>
                  o.response == Failure(NotFound, FileNotFound))
            && (session.Caller? && (fileId.None? || folder.None? || folder.value == "") ==>
                  o.response == Failure(BadRequest, FieldsRequired))
            && (o.response.Reply? ==>
                  && |o.files| == |store|
                  && exists k :: 0 <= k < |store| && store[k].id == fileId.value && store[k].userId == session.userId
                       && o.files == store[k := store[k].(folder := folder.value)]
                       && o.response.payload == o.files[k])
  {
    var o := Move(store, session, fileId, folder);
    if o.response.Reply? {
      var k := FindOwned(store, fileId.value, session.userId).value;
      assert o.files == store[k := store[k].(folder := folder.value)];
    }
  }

  /** The file collection. */
  class FilesDb {
    var files: seq<FileItem>

    constructor ()
      ensures files == []
    {
      files := [];
    }

    /** PATCH /api/files: `findOneAndUpdate` on the caller's file, setting only `folder`. */
    method Patch(session: Session, fileId: Option<Id>, folder: Option<string>) returns (response: Response<FileItem>)
      modifies this`files
      ensures MoveOutcome(response, files) == Move(old(files), session, fileId, folder)
    {
      if session.NoToken? {
        return Failure(Unauthorized, UnauthorizedText);
      }
      if session.BadToken? {
        return Failure(ServerError, UpdateFailed);
      }
      if fileId.None? || folder.None? || folder.value == "" {
        return Failure(BadRequest, FieldsRequired);
      }
      var found := FindOwned(files, fileId.value, session.userId);
      if found.None? {
        return Failure(NotFound, FileNotFound);
      }
      var k := found.value;
      var moved := files[k].(folder := folder.value);
      files := files[k := moved];
      response := Reply(Success, moved);
    }
  }
}
