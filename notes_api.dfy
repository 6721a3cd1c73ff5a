/** GET and POST /api/notes: listing the caller's notes and creating one. The note
    collection is a sequence of documents; `Note.create` appends one. */
module NotesApi {
  import opened Wrappers
  import opened Http
  import opened Text
  import opened Seqs
  import opened Records
  import NotesPage

  const NotAuthenticated := "Not authenticated"
  const InvalidToken := "Invalid or expired token"
  const CreateFailed := "Failed to create note"
  const UntitledNote := "Untitled Note"
  const DefaultFolder := "General"

  /** MongoDB's case-insensitive `$regex` test of a pattern against a text; regular
      expressions themselves are not modelled. */
  type RegexMatch = (string, string) -> bool

  /** The two token failures every handler here answers with 401. */
  function Unauthenticated(session: Session): Response<seq<Note>>
    requires !session.Caller?
  {
    if session.NoToken? then Failure(Unauthorized, NotAuthenticated) else Failure(Unauthorized, InvalidToken)
  }

  /** The filter GET builds: always the caller, a folder only for a non-empty `folder`
      parameter, a text search only for a non-empty `search` parameter (`None` stands for
      an absent parameter). The folder is tested on the raw parameter; Mongoose then casts
      it through the schema's `trim` setter when it runs the query. */
  datatype NoteQuery = NoteQuery(userId: UserId, folder: Option<string>, search: Option<string>)

  function BuildQuery(userId: UserId, folder: Option<string>, search: Option<string>): NoteQuery {
    NoteQuery(userId,
              if folder.Some? && folder.value != "" then Some(Trim(folder.value)) else None,
              if search.Some? && search.value != "" then search else None)
  }

  /** A document the query selects: `{ userId, folder, $or: [title, content] }`. */
  predicate Matches(n: Note, q: NoteQuery, regex: RegexMatch) {
    && n.userId == q.userId
    && (q.folder.Some? ==> n.folder == q.folder.value)
    && (q.search.Some? ==> regex(q.search.value, n.title) || regex(q.search.value, n.content))
  }

  /** GET /api/notes; the `.sort({ isPinned: -1, updatedAt: -1 })` order is the notes
      page's `NoteRank`. */
  function List(store: seq<Note>, session: Session, folder: Option<string>, search: Option<string>, regex: RegexMatch)
    : Response<seq<Note>>
  {
    match session
    case Caller(userId) =>
      var q := BuildQuery(userId, folder, search);
      Reply(Success, SortByRank(Filter(store, (n: Note) => Matches(n, q, regex)), NotesPage.NoteRank))
    case _ => Unauthenticated(session)
  }

  /** Only a verified token gets a list, and the list holds exactly the caller's notes in
      the requested folder that match the search, pinned first and each group most
      recently updated first. */
  lemma ListSpec(store: seq<Note>, session: Session, folder: Option<string>, search: Option<string>, regex: RegexMatch)
    ensures var r := List(store, session, folder, search, regex);
            && (r.Status() == Unauthorized <==> !session.Caller?)
            && (session.NoToken? ==> r == Failure(Unauthorized, NotAuthenticated))
            && (session.Caller? ==> r.Reply? && r.status == Success)
    ensures session.Caller? ==>
              var notes := List(store, session, folder, search, regex).payload;
              && (forall n :: multiset(notes)[n] ==
                    if && n.userId == session.userId
                       && (folder.Some? && folder.value != "" ==> n.folder == Trim(folder.value))
                       && (search.Some? && search.value != "" ==> regex(search.value, n.title) || regex(search.value, n.content))
                    then multiset(store)[n] else 0)
              && (forall i, j :: 0 <= i < j < |notes| ==> notes[i].isPinned || !notes[j].isPinned)
              && (forall i, j :: 0 <= i < j < |notes| && notes[i].isPinned == notes[j].isPinned ==>
                    notes[i].updatedAt >= notes[j].updatedAt)
  {
    if session.Caller? {
      var q := BuildQuery(session.userId, folder, search);
      var kept := Filter(store, (n: Note) => Matches(n, q, regex));
      var notes := List(store, session, folder, search, regex).payload;
      assert notes == SortByRank(kept, NotesPage.NoteRank);
      forall n: Note ensures multiset(notes)[n] ==
                 if && n.userId == session.userId
                    && (folder.Some? && folder.value != "" ==> n.folder == Trim(folder.value))
                    && (search.Some? && search.value != "" ==> regex(search.value, n.title) || regex(search.value, n.content))
                 then multiset(store)[n] else 0
      {
        assert multiset(notes)[n] == multiset(kept)[n];
        assert multiset(kept)[n] == if Matches(n, q, regex) then multiset(store)[n] else 0;
      }
      forall i, j | 0 <= i < j < |notes|
        ensures notes[i].isPinned || !notes[j].isPinned
        ensures notes[i].isPinned == notes[j].isPinned ==> notes[i].updatedAt >= notes[j].updatedAt
      {
        assert !Outranks(NotesPage.NoteRank(notes[j]), NotesPage.NoteRank(notes[i]));
      }
    }
  }

  /** A padded folder parameter finds the notes of the trimmed folder: `?folder=%20Work`
      lists a note filed under "Work". */
  lemma PaddedFolderMatches(n: Note, userId: UserId, regex: RegexMatch)
    requires n.userId == userId && n.folder == "Work"
    ensures List([n], Caller(userId), Some(" Work"), None, regex) == Reply(Success, [n])
  {
    TrimLeadingSpace();
    var q := BuildQuery(userId, Some(" Work"), None);
    assert q.folder == Some("Work") && Matches(n, q, regex);
    FilterAll([n], (m: Note) => Matches(m, q, regex));
    SortSingleton(n, NotesPage.NoteRank);
  }

  lemma TrimLeadingSpace()
    ensures Trim(" Work") == "Work"
  {
    assert SkipSpaces(" Work", 0) == 1;
    assert SkipSpacesBack(" Work", 1, 5) == 5;
  }

  /** The document `Note.create` stores for the body `{ title, content, tags, folder }`:
      the route's `||` defaults, then the schema's `trim` setters on the title and the
      folder. The schema's `required` validator then rejects an empty title, which a
      title of spaces only trims to: `None`. */
  function NewNote(id: Id, userId: UserId, title: Option<string>, content: Option<string>,
                   tags: Option<seq<string>>, folder: Option<string>, now: int): Option<Note>
  {
    var t := Trim(OrDefault(title, UntitledNote));
    if t == "" then None
    else Some(Note(id, userId, t, OrDefault(content, ""), if tags.Some? then tags.value else [],
                   Trim(OrDefault(folder, DefaultFolder)), false, now, now))
  }

  datatype CreateOutcome = CreateOutcome(response: Response<Note>, notes: seq<Note>)

  function NoteIds(notes: seq<Note>): seq<Id> {
    seq(|notes|, k requires 0 <= k < |notes| => notes[k].id)
  }

  /** POST /api/notes. */
  function Create(store: seq<Note>, session: Session, title: Option<string>, content: Option<string>,
                  tags: Option<seq<string>>, folder: Option<string>, now: int): CreateOutcome
  {
    match session
    case NoToken => CreateOutcome(Failure(Unauthorized, NotAuthenticated), store)
    case BadToken => CreateOutcome(Failure(Unauthorized, InvalidToken), store)
    case Caller(userId) =>
      match NewNote(FreshId(NoteIds(store)), userId, title, content, tags, folder, now)
      case None => CreateOutcome(Failure(ServerError, CreateFailed), store)
      case Some(n) => CreateOutcome(Reply(Created, n), store + [n])
  }

  /** A create either fails and leaves the collection as it was, or answers 201 with the
      note it appended: a new id, owned by the caller, unpinned, with the defaults for
      every field the body leaves out and the title and folder trimmed. */
  lemma CreateSpec(store: seq<Note>, session: Session, title: Option<string>, content: Option<string>,
                   tags: Option<seq<string>>, folder: Option<string>, now: int)
    ensures var o := Create(store, session, title, content, tags, folder, now);
            && (o.response.Reply? <==> session.Caller? && Trim(OrDefault(title, UntitledNote)) != "")
            && (o.response.Failure? ==> o.notes == store)
            && (!session.Caller? ==> o.response.status == Unauthorized)
            && (o.response.Reply? ==>
                  var n := o.response.payload;
                  && o.response.status == Created
                  && o.notes == store + [n]
                  && (forall k :: 0 <= k < |store| ==> store[k].id != n.id)
                  && n.userId == session.userId
                  && n.title == Trim(OrDefault(title, UntitledNote))
                  && n.content == OrDefault(content, "")
                  && n.tags == (if tags.Some? then tags.value else [])
                  && n.folder == Trim(OrDefault(folder, DefaultFolder))
                  && !n.isPinned && n.createdAt == now && n.updatedAt == now)
  {
    var ids := NoteIds(store);
    assert forall k :: 0 <= k < |store| ==> ids[k] == store[k].id;
  }

  /** An empty body makes an "Untitled Note" in "General" with no content and no tags. */
  lemma EmptyBodyDefaults(store: seq<Note>, userId: UserId, now: int)
    ensures var o := Create(store, Caller(userId), None, None, None, None, now);
            && o.response.Reply? && o.response.status == Created
            && var n := o.response.payload;
               && o.notes == store + [n]
               && n.title == UntitledNote && n.content == "" && n.tags == [] && n.folder == DefaultFolder
  {
    TrimOfTrimmed(UntitledNote);
    TrimOfTrimmed(DefaultFolder);
    assert Trim(OrDefault(None, UntitledNote)) == UntitledNote;
    assert Trim(OrDefault(None, DefaultFolder)) == DefaultFolder;
    CreateSpec(store, Caller(userId), None, None, None, None, now);
  }

  /** A title of spaces only is not replaced by the default (it is truthy) and trims to
      the empty title the schema refuses: the create fails with 500. */
  lemma BlankTitleFails(store: seq<Note>, userId: UserId, title: string, now: int)
    requires title != "" && AllSpace(title)
    ensures Create(store, Caller(userId), Some(title), None, None, None, now)
         == CreateOutcome(Failure(ServerError, CreateFailed), store)
  {
    TrimEmptyIffAllSpace(title);
  }

  /** The note collection. */
  class NotesDb {
    var notes: seq<Note>

    constructor ()
      ensures notes == []
    {
      notes := [];
    }

    /** POST /api/notes: check the token, build the document, append it. */
    method Post(session: Session, title: Option<string>, content: Option<string>,
                tags: Option<seq<string>>, folder: Option<string>, now: int)
      returns (response: Response<Note>)
      modifies this`notes
      ensures CreateOutcome(response, notes) == Create(old(notes), session, title, content, tags, folder, now)
    {
      if session.NoToken? {
        return Failure(Unauthorized, NotAuthenticated);
      }
      if session.BadToken? {
        return Failure(Unauthorized, InvalidToken);
      }
      var id := FreshId(NoteIds(notes));
      var created := NewNote(id, session.userId, title, content, tags, folder, now);
      if created.None? {
        return Failure(ServerError, CreateFailed);
      }
      notes := notes + [created.value];
      response := Reply(Created, created.value);
    }
  }
}
