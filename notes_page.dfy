/** The list logic of the notes page: filtering and ordering the notes, counting tags, the
    comma-separated tag input, removing a tag, the folder of a new note and deleting the
    note being edited. */
module NotesPage {
  import opened Wrappers
  import opened Text
  import opened Seqs
  import opened Records

  const AllFolders := "all"
  const DefaultFolder := "General"

  // ---------------------------------------------------------------------------------------
  // Filtering and ordering

  /** `selectedTag` is set and not empty. */
  predicate TagSelected(tag: Option<string>) {
    tag.Some? && tag.value != ""
  }

  function ByFolder(notes: seq<Note>, folder: string): seq<Note> {
    if folder == AllFolders then notes else Filter(notes, (n: Note) => n.folder == folder)
  }

  function ByTag(notes: seq<Note>, tag: Option<string>): seq<Note> {
    if TagSelected(tag) then Filter(notes, (n: Note) => tag.value in n.tags) else notes
  }

  /** The search tests the trimmed query for emptiness but matches with the untrimmed,
      lower-cased query. */
  predicate MatchesQuery(n: Note, query: string) {
    Contains(ToLower(n.title), ToLower(query)) || Contains(ToLower(n.content), ToLower(query))
  }

  function BySearch(notes: seq<Note>, query: string): seq<Note> {
    if Trim(query) != "" then Filter(notes, (n: Note) => MatchesQuery(n, query)) else notes
  }

  /** The comparator's order: pinned notes first, then the most recently updated. */
  function NoteRank(n: Note): Rank {
    Rank(if n.isPinned then 1 else 0, n.updatedAt)
  }

  /** `getFilteredNotes`; the page's sort is stable (`Seqs.SortByRankIsStable`), so notes
      that tie keep the order of the list. */
  function FilteredNotes(notes: seq<Note>, folder: string, tag: Option<string>, query: string): seq<Note> {
    SortByRank(BySearch(ByTag(ByFolder(notes, folder), tag), query), NoteRank)
  }

  /** The three conditions a listed note meets. */
  predicate Selected(n: Note, folder: string, tag: Option<string>, query: string) {
    && (folder == AllFolders || n.folder == folder)
    && (TagSelected(tag) ==> tag.value in n.tags)
    && (Trim(query) != "" ==> MatchesQuery(n, query))
  }

  /** No filter applies, so the page sorts its own list of notes. */
  predicate Unfiltered(folder: string, tag: Option<string>, query: string) {
    folder == AllFolders && !TagSelected(tag) && Trim(query) == ""
  }

  /** The listed notes are exactly the selected notes of the input, each as often as there,
      pinned ones first and each group newest first. */
  lemma FilteredNotesSpec(notes: seq<Note>, folder: string, tag: Option<string>, query: string)
    ensures var r := FilteredNotes(notes, folder, tag, query);
            && (forall n :: multiset(r)[n] == if Selected(n, folder, tag, query) then multiset(notes)[n] else 0)
            && (forall i, j :: 0 <= i < j < |r| ==> r[i].isPinned || !r[j].isPinned)
            && (forall i, j :: 0 <= i < j < |r| && r[i].isPinned == r[j].isPinned ==> r[i].updatedAt >= r[j].updatedAt)
  {
    var r := FilteredNotes(notes, folder, tag, query);
    var a := ByFolder(notes, folder);
    var b := ByTag(a, tag);
    var c := BySearch(b, query);
    assert r == SortByRank(c, NoteRank);
    forall n: Note ensures multiset(r)[n] == if Selected(n, folder, tag, query) then multiset(notes)[n] else 0 {
      assert multiset(r)[n] == multiset(c)[n];
      assert multiset(c)[n] == if Trim(query) != "" ==> MatchesQuery(n, query) then multiset(b)[n] else 0;
      assert multiset(b)[n] == if TagSelected(tag) ==> tag.value in n.tags then multiset(a)[n] else 0;
      assert multiset(a)[n] == if folder == AllFolders || n.folder == folder then multiset(notes)[n] else 0;
    }
    forall i, j | 0 <= i < j < |r|
      ensures r[i].isPinned || !r[j].isPinned
      ensures r[i].isPinned == r[j].isPinned ==> r[i].updatedAt >= r[j].updatedAt
    {
      assert !Outranks(NoteRank(r[j]), NoteRank(r[i]));
    }
  }

  /** A trailing space stays in the query: "work " finds no note titled "work" whose
      content lacks it, although the query counts as non-blank. */
  lemma SearchKeepsSpaces()
    ensures Trim("work ") != ""
    ensures !MatchesQuery(Note(0, 0, "work", "", [], DefaultFolder, false, 0, 0), "work ")
  {
    TrimEmptyIffAllSpace("work ");
    assert !IsSpace("work "[0]);
    LongerNotContained(ToLower("work"), ToLower("work "));
    LongerNotContained(ToLower(""), ToLower("work "));
  }

  // ---------------------------------------------------------------------------------------
  // Tag counts

  datatype TagCount = TagCount(name: string, count: nat)

  /** Every tag of every note, note by note. */
  function TagList(notes: seq<Note>): seq<string>
    decreases |notes|
  {
    if notes == [] then [] else TagList(notes[..|notes| - 1]) + notes[|notes| - 1].tags
  }

  /** The distinct tags in order of first appearance, each with its number of uses. */
  function TagEntries(notes: seq<Note>): seq<TagCount> {
    var all := TagList(notes);
    var names := Dedup(all);
    seq(|names|, k requires 0 <= k < |names| => TagCount(names[k], Count(all, names[k])))
  }

  function CountRank(t: TagCount): Rank {
    Rank(t.count, 0)
  }

  /** What `getAllTags` returns for `notes`. */
  function AllTagsOf(notes: seq<Note>): seq<TagCount> {
    SortByRank(TagEntries(notes), CountRank)
  }

  /** The entries are distinct tags, every tag in use has one, and each carries its
      number of uses. */
  lemma TagEntriesSpec(notes: seq<Note>)
    ensures var e := TagEntries(notes);
            && NoDuplicates(e)
            && (forall i, j :: 0 <= i < j < |e| ==> e[i].name != e[j].name)
            && (forall t :: t in TagList(notes) <==> exists i :: 0 <= i < |e| && e[i].name == t)
            && (forall i :: 0 <= i < |e| ==> e[i].count == Count(TagList(notes), e[i].name) && e[i].count >= 1)
  {
    var all := TagList(notes);
    var e := TagEntries(notes);
    var names := Dedup(all);
    forall t | t in all ensures exists i :: 0 <= i < |e| && e[i].name == t {
      var a :| 0 <= a < |names| && names[a] == t;
      assert e[a].name == t;
    }
    forall i | 0 <= i < |e| ensures e[i].count >= 1 {
      assert names[i] in names;
      assert names[i] in multiset(all);
    }
    forall i, j | 0 <= i < j < |e| ensures e[i] != e[j] {
      assert e[i].name == names[i] && e[j].name == names[j];
    }
  }

  /** The listed names are distinct. */
  lemma AllTagsDistinct(notes: seq<Note>)
    ensures var r := AllTagsOf(notes);
            forall i, j :: 0 <= i < j < |r| ==> r[i].name != r[j].name
  {
    var e := TagEntries(notes);
    var r := AllTagsOf(notes);
    TagEntriesSpec(notes);
    PermutationKeepsMembers(e, r);
    forall i, j | 0 <= i < j < |r| ensures r[i].name != r[j].name {
      assert r[i] in r && r[j] in r;
      var a :| 0 <= a < |e| && e[a] == r[i];
      var b :| 0 <= b < |e| && e[b] == r[j];
      PermutationKeepsDistinct(e, r);
    }
  }

  /** Exactly the tags in use are listed. */
  lemma AllTagsNames(notes: seq<Note>)
    ensures var r := AllTagsOf(notes);
            forall t :: t in TagList(notes) <==> exists i :: 0 <= i < |r| && r[i].name == t
  {
    var e := TagEntries(notes);
    var r := AllTagsOf(notes);
    assert multiset(e) == multiset(r);
    forall t | t in TagList(notes) ensures exists i :: 0 <= i < |r| && r[i].name == t {
      TagEntriesSpec(notes);
      var a :| 0 <= a < |e| && e[a].name == t;
      assert e[a] in multiset(r);
      var i :| 0 <= i < |r| && r[i] == e[a];
    }
    forall i | 0 <= i < |r| ensures r[i].name in TagList(notes) {
      TagEntriesSpec(notes);
      assert r[i] in multiset(e);
      var a :| 0 <= a < |e| && e[a] == r[i];
    }
  }

  /** Each listed tag carries its number of uses. */
  lemma AllTagsCounts(notes: seq<Note>)
    ensures var r := AllTagsOf(notes);
            forall i :: 0 <= i < |r| ==> r[i].count == Count(TagList(notes), r[i].name) && r[i].count >= 1
  {
    var e := TagEntries(notes);
    var r := AllTagsOf(notes);
    TagEntriesSpec(notes);
    PermutationKeepsMembers(e, r);
    forall i | 0 <= i < |r|
      ensures r[i].count == Count(TagList(notes), r[i].name) && r[i].count >= 1
    {
      assert r[i] in r;
      var a :| 0 <= a < |e| && e[a] == r[i];
    }
  }

  /** Every tag in use is listed exactly once with its number of uses across all notes,
      no other name is listed, and larger counts come first. */
  lemma AllTagsSpec(notes: seq<Note>)
    ensures var r := AllTagsOf(notes);
            && (forall i, j :: 0 <= i < j < |r| ==> r[i].name != r[j].name)
            && (forall t :: t in TagList(notes) <==> exists i :: 0 <= i < |r| && r[i].name == t)
            && (forall i :: 0 <= i < |r| ==> r[i].count == Count(TagList(notes), r[i].name) && r[i].count >= 1)
            && (forall i, j :: 0 <= i < j < |r| ==> r[i].count >= r[j].count)
  {
    AllTagsDistinct(notes);
    AllTagsNames(notes);
    AllTagsCounts(notes);
    var r := AllTagsOf(notes);
    forall i, j | 0 <= i < j < |r| ensures r[i].count >= r[j].count {
      assert !Outranks(CountRank(r[j]), CountRank(r[i]));
    }
  }

  // ---------------------------------------------------------------------------------------
  // The tag input

  /** `input.split(',').map(t => t.trim()).filter(t => t)`. */
  function NewTags(input: string): seq<string> {
    var parts := Split(input, ',');
    Filter(seq(|parts|, k requires 0 <= k < |parts| => Trim(parts[k])), (t: string) => t != "")
  }

  /** The note's tags after a blur or Enter in the tag input: a blank input changes
      nothing, otherwise `Array.from(new Set([...existing, ...newTags]))`. */
  function MergeTags(existing: seq<string>, input: string): seq<string> {
    var trimmed := Trim(input);
    if trimmed == "" then existing else Dedup(existing + NewTags(trimmed))
  }

  /** Each new tag is trimmed, non-empty and free of commas. */
  lemma NewTagsClean(input: string)
    ensures forall t :: t in NewTags(input) ==> t != "" && Trim(t) == t && ',' !in t
  {
    var parts := Split(input, ',');
    var trimmed := seq(|parts|, k requires 0 <= k < |parts| => Trim(parts[k]));
    forall t | t in NewTags(input) ensures t != "" && Trim(t) == t && ',' !in t {
      assert t in trimmed;
      var k :| 0 <= k < |parts| && trimmed[k] == t;
      TrimIdempotent(parts[k]);
      TrimIsSlice(parts[k]);
    }
  }

  /** A trimmed string is a piece of the original. */
  lemma TrimIsSlice(s: string)
    ensures forall c :: c in Trim(s) ==> c in s
  {
    var i := SkipSpaces(s, 0);
    assert Trim(s) == s[i..i + |Trim(s)|];
  }

  /** Merging keeps the existing tags in place and in order, adds each new tag once and
      only new tags, and leaves the list without repeats; a blank input changes nothing. */
  lemma MergeTagsSpec(existing: seq<string>, input: string)
    ensures Trim(input) == "" ==> MergeTags(existing, input) == existing
    ensures Trim(input) != "" ==>
              var r := MergeTags(existing, input);
              && NoDuplicates(r)
              && (forall t :: t in r <==> t in existing || t in NewTags(Trim(input)))
    ensures NoDuplicates(existing) ==>
              var r := MergeTags(existing, input);
              |existing| <= |r| && r[..|existing|] == existing
  {
    if Trim(input) != "" && NoDuplicates(existing) {
      DedupPrefix(existing, NewTags(Trim(input)));
      DedupOfDistinct(existing);
    }
  }

  /** Removing the tag at a position takes out exactly that occurrence: putting it back at
      the same position gives the list back. */
  lemma RemoveTagSpec(tags: seq<string>, idx: nat)
    requires idx < |tags|
    ensures var r := RemoveAt(tags, idx);
            && r[..idx] + [tags[idx]] + r[idx..] == tags
            && multiset(r) == multiset(tags) - multiset{tags[idx]}
  {
    var r := RemoveAt(tags, idx);
    assert r == tags[..idx] + tags[idx + 1..];
    assert r[..idx] == tags[..idx] && r[idx..] == tags[idx + 1..];
    assert tags == tags[..idx] + [tags[idx]] + tags[idx + 1..];
  }

  // ---------------------------------------------------------------------------------------
  // Creating and deleting

  /** The folder `handleCreateNote` sends: the selected one, or "General" under "all". */
  function FolderForNewNote(selected: string): (folder: string)
    ensures folder != AllFolders
    ensures selected != AllFolders ==> folder == selected
    ensures selected == AllFolders ==> folder == DefaultFolder
  {
    if selected == AllFolders then DefaultFolder else selected
  }

  /** Deleting an id that no listed note has leaves the list as it was. */
  lemma DeleteAbsentIsNoOp(notes: seq<Note>, id: Id)
    requires forall n :: n in notes ==> n.id != id
    ensures Filter(notes, (n: Note) => n.id != id) == notes
  {
    FilterAll(notes, (n: Note) => n.id != id);
  }

  /** `names` lists the distinct tags of `seen` in order of first appearance and `counts`
      maps each of them to its number of occurrences: the `Map` `getAllTags` fills, whose
      keys keep insertion order. */
  ghost predicate Tally(names: seq<string>, counts: map<string, nat>, seen: seq<string>) {
    && names == Dedup(seen)
    && (forall t :: t in counts <==> t in names)
    && (forall t :: t in counts ==> counts[t] == Count(seen, t))
  }

  /** `tagMap.set(tag, (tagMap.get(tag) || 0) + 1)`: the tally of one more tag. */
  method CountOne(names: seq<string>, counts: map<string, nat>, ghost seen: seq<string>, tag: string)
    returns (names': seq<string>, counts': map<string, nat>)
    requires Tally(names, counts, seen)
    ensures Tally(names', counts', seen + [tag])
  {
    var previous := if tag in counts then counts[tag] else 0;
    counts' := counts[tag := previous + 1];
    names' := if tag in names then names else names + [tag];
    TallyAppend(seen, tag);
  }

  /** One more tag extends the distinct list when it is new and adds one to its count. */
  lemma TallyAppend(seen: seq<string>, tag: string)
    ensures Dedup(seen + [tag]) == if tag in Dedup(seen) then Dedup(seen) else Dedup(seen) + [tag]
    ensures forall t :: Count(seen + [tag], t) == Count(seen, t) + (if t == tag then 1 else 0)
  {
    var extended := seen + [tag];
    assert extended[..|extended| - 1] == seen;
    assert multiset(extended) == multiset(seen) + multiset{tag};
  }

  /** The inner loop of `getAllTags`: the tags of one note. */
  method CountNoteTags(names: seq<string>, counts: map<string, nat>, ghost before: seq<string>, tags: seq<string>)
    returns (names': seq<string>, counts': map<string, nat>)
    requires Tally(names, counts, before)
    ensures Tally(names', counts', before + tags)
  {
    names', counts' := names, counts;
    var j := 0;
    assert before + tags[..0] == before;
    while j < |tags|
      invariant 0 <= j <= |tags|
      invariant Tally(names', counts', before + tags[..j])
    {
      ghost var seen := before + tags[..j];
      assert tags[..j + 1] == tags[..j] + [tags[j]];
      assert seen + [tags[j]] == before + tags[..j + 1];
      names', counts' := CountOne(names', counts', seen, tags[j]);
      j := j + 1;
    }
    assert tags[..|tags|] == tags;
  }

  /** The tally of all notes, as a list of entries in order of first appearance. */
  lemma TallyEntries(notes: seq<Note>, names: seq<string>, counts: map<string, nat>)
    requires Tally(names, counts, TagList(notes))
    ensures seq(|names|, k requires 0 <= k < |names| && names[k] in counts => TagCount(names[k], counts[names[k]])) == TagEntries(notes)
  {
  }

  /** The outer loop of `getAllTags` followed by the sort of the map's entries. */
  method CountTags(notes: seq<Note>) returns (tags: seq<TagCount>)
    ensures tags == AllTagsOf(notes)
  {
    var names: seq<string> := [];
    var counts: map<string, nat> := map[];
    var i := 0;
    while i < |notes|
      invariant 0 <= i <= |notes|
      invariant Tally(names, counts, TagList(notes[..i]))
    {
      assert notes[..i + 1][..i] == notes[..i];
      names, counts := CountNoteTags(names, counts, TagList(notes[..i]), notes[i].tags);
      i := i + 1;
    }
    assert notes[..|notes|] == notes;
    var entries := seq(|names|, k requires 0 <= k < |names| && names[k] in counts => TagCount(names[k], counts[names[k]]));
    TallyEntries(notes, names, counts);
    tags := SortByRank(entries, CountRank);
  }

  /** The state of the notes page these handlers read and write. */
  class NotesBoard {
    var notes: seq<Note>
    var selectedFolder: string
    var selectedTag: Option<string>
    var searchQuery: string
    var editing: Option<Note>
    var inEditor: bool

    constructor ()
      ensures notes == [] && selectedFolder == AllFolders && selectedTag == None && searchQuery == ""
      ensures editing == None && !inEditor
    {
      notes := [];
      selectedFolder := AllFolders;
      selectedTag := None;
      searchQuery := "";
      editing := None;
      inEditor := false;
    }

    /** `getFilteredNotes`. Each filter makes a new array, but with no filter in force
        `result.sort` sorts the page's own list in place, so the list state itself is
        reordered. */
    method GetFilteredNotes() returns (result: seq<Note>)
      modifies this`notes
      ensures result == FilteredNotes(old(notes), selectedFolder, selectedTag, searchQuery)
      ensures Unfiltered(selectedFolder, selectedTag, searchQuery) ==> notes == result
      ensures !Unfiltered(selectedFolder, selectedTag, searchQuery) ==> notes == old(notes)
      ensures multiset(notes) == multiset(old(notes))
    {
      var copied := false;
      result := notes;
      if selectedFolder != AllFolders {
        var folder := selectedFolder;
        result := Filter(result, (n: Note) => n.folder == folder);
        copied := true;
      }
      if TagSelected(selectedTag) {
        var tag := selectedTag.value;
        result := Filter(result, (n: Note) => tag in n.tags);
        copied := true;
      }
      if Trim(searchQuery) != "" {
        var query := searchQuery;
        result := Filter(result, (n: Note) => MatchesQuery(n, query));
        copied := true;
      }
      result := SortByRank(result, NoteRank);
      if !copied {
        notes := result;
      }
    }

    /** `getAllTags`. */
    method GetAllTags() returns (tags: seq<TagCount>)
      ensures tags == AllTagsOf(notes)
    {
      tags := CountTags(notes);
    }

    /** `handleCreateNote`: the folder sent with the request, and the created note put at
        the head of the list when the server returns one. */
    method CreateNote(created: Option<Note>) returns (folder: string)
      modifies this`notes
      ensures folder == FolderForNewNote(selectedFolder)
      ensures created.Some? ==> notes == [created.value] + old(notes)
      ensures created.None? ==> notes == old(notes)
    {
      folder := if selectedFolder == AllFolders then DefaultFolder else selectedFolder;
      if created.Some? {
        notes := [created.value] + notes;
      }
    }

    /** `handleDeleteNote`, `deleted` being whether the server accepted the delete: only
        the edited note's id leaves the list, and the editor closes. */
    method DeleteNote(deleted: bool)
      modifies this`notes, this`editing, this`inEditor
      ensures old(editing).None? || !deleted ==>
                notes == old(notes) && editing == old(editing) && inEditor == old(inEditor)
      ensures old(editing).Some? && deleted ==>
                var id := old(editing).value.id;
                && notes == Filter(old(notes), (n: Note) => n.id != id)
                && editing == None && !inEditor
    {
      if editing.None? {
        return;
      }
      var id := editing.value.id;
      if !deleted {
        return;
      }
      editing := None;
      notes := Filter(notes, (n: Note) => n.id != id);
      inEditor := false;
    }
  }
}
