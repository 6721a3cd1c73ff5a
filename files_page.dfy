/** The list logic of the files page: searching and ordering the files, the distinct
    folder names, the icon chosen from a MIME type, deleting a file and starting an
    upload. The relative time shown beside each file is `RelativeTime`. */
module FilesPage {
  import opened Wrappers
  import opened Text
  import opened Seqs
  import opened Records

  const DefaultFolder := "General"

  // ---------------------------------------------------------------------------------------
  // Searching and ordering

  /** As on the notes page, the query is tested for blankness trimmed but matched
      untrimmed, lower-cased. */
  predicate NameMatches(f: FileItem, query: string) {
    Contains(ToLower(f.name), ToLower(query))
  }

  function BySearch(files: seq<FileItem>, query: string): seq<FileItem> {
    if Trim(query) != "" then Filter(files, (f: FileItem) => NameMatches(f, query)) else files
  }

  /** The comparator's order: the newest upload first. */
  function FileRank(f: FileItem): Rank {
    Rank(f.createdAt, 0)
  }

  /** `getFilteredFiles`, sorted stably. */
  function FilteredFiles(files: seq<FileItem>, query: string): seq<FileItem> {
    SortByRank(BySearch(files, query), FileRank)
  }

  /** The listed files are exactly the matching files of the input, each as often as
      there, newest first; a blank query lists every file. */
  lemma FilteredFilesSpec(files: seq<FileItem>, query: string)
    ensures var r := FilteredFiles(files, query);
            && (forall f :: multiset(r)[f] == if Trim(query) == "" || NameMatches(f, query) then multiset(files)[f] else 0)
            && (forall i, j :: 0 <= i < j < |r| ==> r[i].createdAt >= r[j].createdAt)
  {
    var r := FilteredFiles(files, query);
    var b := BySearch(files, query);
    assert forall f: FileItem :: multiset(b)[f] == if Trim(query) == "" || NameMatches(f, query) then multiset(files)[f] else 0;
    forall i, j | 0 <= i < j < |r| ensures r[i].createdAt >= r[j].createdAt {
      assert !Outranks(FileRank(r[j]), FileRank(r[i]));
    }
  }

  // ---------------------------------------------------------------------------------------
  // Folder names

  /** `Array.from(new Set(files.map(f => f.folder))).filter(f => f && f !== 'General')`. */
  function Folders(files: seq<FileItem>): seq<string> {
    var names := seq(|files|, k requires 0 <= k < |files| => files[k].folder);
    Filter(Dedup(names), (f: string) => f != "" && f != DefaultFolder)
  }

  /** Each folder some file is in is listed once, except the empty name and "General". */
  lemma FoldersSpec(files: seq<FileItem>)
    ensures NoDuplicates(Folders(files))
    ensures forall name :: name in Folders(files) <==>
              name != "" && name != DefaultFolder && exists k :: 0 <= k < |files| && files[k].folder == name
  {
    var names := seq(|files|, k requires 0 <= k < |files| => files[k].folder);
    var p := (f: string) => f != "" && f != DefaultFolder;
    FilterKeepsDistinct(Dedup(names), p);
    forall name ensures name in Folders(files) <==>
                          name != "" && name != DefaultFolder && exists k :: 0 <= k < |files| && files[k].folder == name
    {
      if name in names {
        var k :| 0 <= k < |names| && names[k] == name;
        assert files[k].folder == name;
      }
      if exists k :: 0 <= k < |files| && files[k].folder == name {
        var k :| 0 <= k < |files| && files[k].folder == name;
        assert names[k] == name;
      }
    }
  }

  // ---------------------------------------------------------------------------------------
  // Icons

  datatype Icon = ImageIcon | DocumentIcon | GenericIcon

  /** `getFileIcon`. */
  function FileIcon(mimeType: string): Icon {
    if StartsWith(mimeType, "image/") then ImageIcon
    else if mimeType == "application/pdf" || StartsWith(mimeType, "text/") then DocumentIcon
    else GenericIcon
  }

  /** The three classes, each described on its own; the image test wins over the others. */
  lemma FileIconSpec(mimeType: string)
    ensures FileIcon(mimeType) == ImageIcon <==> StartsWith(mimeType, "image/")
    ensures FileIcon(mimeType) == DocumentIcon <==>
              !StartsWith(mimeType, "image/") && (mimeType == "application/pdf" || StartsWith(mimeType, "text/"))
    ensures FileIcon(mimeType) == GenericIcon <==>
              !StartsWith(mimeType, "image/") && !StartsWith(mimeType, "text/") && mimeType != "application/pdf"
  {
  }

  /** Worked values: a PNG image, a PDF, a plain-text file and a ZIP archive. */
  lemma FileIconExamples()
    ensures FileIcon("image/png") == ImageIcon
    ensures FileIcon("application/pdf") == DocumentIcon
    ensures FileIcon("text/plain") == DocumentIcon
    ensures FileIcon("application/zip") == GenericIcon
  {
    assert "image/png"[..6] == "image/";
    assert "text/plain"[..5] == "text/";
    assert "application/pdf"[0] != "image/"[0] && "application/pdf"[0] != "text/"[0];
    assert "application/zip"[0] != "image/"[0] && "application/zip"[0] != "text/"[0];
    assert "application/zip"[12] != "application/pdf"[12];
  }

  // ---------------------------------------------------------------------------------------
  // Deleting

  /** Some file in the list has the id. */
  predicate HasId(files: seq<FileItem>, id: Id) {
    exists k :: 0 <= k < |files| && files[k].id == id
  }

  /** No two files in the list share an id. */
  predicate DistinctIds(files: seq<FileItem>) {
    forall i, j :: 0 <= i < j < |files| ==> files[i].id != files[j].id
  }

  lemma HasIdOfTail(files: seq<FileItem>, id: Id)
    requires files != []
    ensures HasId(files, id) <==> files[0].id == id || HasId(files[1..], id)
    ensures DistinctIds(files) ==> DistinctIds(files[1..])
    ensures DistinctIds(files) && files[0].id == id ==> !HasId(files[1..], id)
  {
    var rest := files[1..];
    if HasId(files, id) && files[0].id != id {
      var k :| 0 <= k < |files| && files[k].id == id;
      assert rest[k - 1].id == id;
    }
    if HasId(rest, id) {
      var k :| 0 <= k < |rest| && rest[k].id == id;
      assert files[k + 1].id == id;
    }
  }

  /** With distinct ids, deleting an id takes out exactly one file when some file has it
      and none otherwise. */
  lemma {:induction false} DeleteRemovesOne(files: seq<FileItem>, id: Id)
    requires DistinctIds(files)
    ensures |Filter(files, (f: FileItem) => f.id != id)| == |files| - (if HasId(files, id) then 1 else 0)
    decreases |files|
  {
    var p := (f: FileItem) => f.id != id;
    if files != [] {
      var rest := files[1..];
      HasIdOfTail(files, id);
      DeleteRemovesOne(rest, id);
      assert Filter(files, p) == (if p(files[0]) then [files[0]] else []) + Filter(rest, p);
      if files[0].id == id {
        FilterAll(rest, p);
      }
    }
  }

  /** The state of the files page these handlers read and write. */
  class FilesView {
    var files: seq<FileItem>
    var searchQuery: string
    var preview: Option<FileItem>
    var uploadingNames: seq<string>
    var uploadProgress: int

    constructor ()
      ensures files == [] && searchQuery == "" && preview == None
      ensures uploadingNames == [] && uploadProgress == 0
    {
      files := [];
      searchQuery := "";
      preview := None;
      uploadingNames := [];
      uploadProgress := 0;
    }

    /** `getFilteredFiles`. With a blank query `result` is the page's own list, and
        `result.sort` reorders that list in place. */
    method GetFilteredFiles() returns (result: seq<FileItem>)
      modifies this`files
      ensures result == FilteredFiles(old(files), searchQuery)
      ensures Trim(searchQuery) == "" ==> files == result
      ensures Trim(searchQuery) != "" ==> files == old(files)
      ensures multiset(files) == multiset(old(files))
    {
      result := files;
      var blank := Trim(searchQuery) == "";
      if !blank {
        var query := searchQuery;
        result := Filter(result, (f: FileItem) => NameMatches(f, query));
      }
      result := SortByRank(result, FileRank);
      if blank {
        files := result;
      }
    }

    /** `handleDeleteFile`, `confirmed` being the answer to the confirmation dialog and
        `deleted` whether the server accepted the delete. */
    method DeleteFile(id: Id, confirmed: bool, deleted: bool)
      modifies this`files, this`preview
      ensures !(confirmed && deleted) ==> files == old(files) && preview == old(preview)
      ensures confirmed && deleted ==> files == Filter(old(files), (f: FileItem) => f.id != id)
      ensures confirmed && deleted ==>
                preview == if old(preview).Some? && old(preview).value.id == id then None else old(preview)
    {
      if !confirmed || !deleted {
        return;
      }
      files := Filter(files, (f: FileItem) => f.id != id);
      if preview.Some? && preview.value.id == id {
        preview := None;
      }
    }

    /** `handleFileSelect`: `selected` is the input's file list (`None` for null), given by
        the file names. An empty or missing selection starts nothing. */
    method FileSelect(selected: Option<seq<string>>) returns (started: bool)
      modifies this`uploadingNames, this`uploadProgress
      ensures started <==> selected.Some? && selected.value != []
      ensures !started ==> uploadingNames == old(uploadingNames) && uploadProgress == old(uploadProgress)
      ensures started ==> uploadingNames == selected.value && uploadProgress == 0
    {
      if selected.None? || |selected.value| == 0 {
        return false;
      }
      uploadingNames := selected.value;
      uploadProgress := 0;
      started := true;
    }
  }
}
