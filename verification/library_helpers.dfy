/** Building the directory view of the library browser
    (src/app/library_helpers.rs): MPD's folder and song listings become
    library items, hidden entries are skipped, and the result is sorted
    folders first, then by lower-cased name. The two MPD requests are
    parameters: `None` stands for a request that failed. */
module LibraryHelpers {
  import opened Wrappers
  import Text
  import Lists
  import opened S = AppState

  /** One `listfiles` entry: its kind ("directory", "file", ...) and name. */
  datatype Entry = Entry(kind: string, name: string)

  /** The parts of an `lsinfo` song the browser reads. */
  datatype SongInfo = SongInfo(file: string, title: Option<string>, artist: Option<string>, durationMs: Option<nat>)

  const DIRECTORY: string := "directory"

  // ---------------------------------------------------------------------
  // Names and paths
  // ---------------------------------------------------------------------

  /** `name.split('/').next_back()`: the longest suffix without '/'. */
  function LastComponent(name: string): (r: string)
    ensures '/' !in r
    ensures |r| <= |name| && r == name[|name| - |r|..]
    ensures |r| < |name| ==> name[|name| - |r| - 1] == '/'
  {
    if name == [] || name[|name| - 1] == '/' then []
    else LastComponent(name[..|name| - 1]) + [name[|name| - 1]]
  }

  /** An entry the browser does not show: its display name starts with '.'
      or is nothing but whitespace. */
  predicate Hidden(display: string)
    ensures Hidden(display) <==> (|display| > 0 && display[0] == '.') || Text.Blank(display)
  {
    Text.StartsWith(display, ".") || Text.Trim(display) == []
  }

  /** The path of a child: the name alone at the root, otherwise the parent,
      a '/', and the name. */
  function JoinPath(parent: string, name: string): (r: string)
    ensures Text.StartsWith(r, parent)
    ensures |r| >= |name| && r[|r| - |name|..] == name
    ensures parent == [] ==> r == name
    ensures parent != [] ==> |r| == |parent| + 1 + |name| && r[|parent|] == '/'
  {
    if parent == [] then name else parent + "/" + name
  }

  /** The shown name of a child is the shown name of what was joined. */
  lemma JoinPathLast(parent: string, name: string)
    ensures LastComponent(JoinPath(parent, name)) == LastComponent(name)
  {
    if parent != [] {
      LastAfterSlash(parent, name);
    }
  }

  /** Whatever precedes a '/' does not show in the last component. */
  lemma {:induction false} LastAfterSlash(a: string, b: string)
    ensures LastComponent(a + "/" + b) == LastComponent(b)
    decreases |b|
  {
    var s := a + "/" + b;
    if b == [] {
      assert s[|s| - 1] == '/';
    } else {
      assert s[|s| - 1] == b[|b| - 1];
      if b[|b| - 1] != '/' {
        assert s[..|s| - 1] == a + "/" + b[..|b| - 1];
        LastAfterSlash(a, b[..|b| - 1]);
      }
    }
  }

  // ---------------------------------------------------------------------
  // Items
  // ---------------------------------------------------------------------

  /** The folder item for a `listfiles` entry, if it is a visible
      directory. */
  function FolderOf(path: string, e: Entry): (r: Option<LibraryItem>)
    ensures r.Some? <==> e.kind == DIRECTORY && !Hidden(LastComponent(e.name))
    ensures r.Some? ==> r.value == LibraryItem(LastComponent(e.name), Folder, None, None, Some(JoinPath(path, e.name)))
  {
    var display := LastComponent(e.name);
    if Hidden(display) || e.kind != DIRECTORY then None
    else Some(LibraryItem(display, Folder, None, None, Some(JoinPath(path, e.name))))
  }

  /** A song's shown title: its tag when that is not blank, otherwise its
      file name. */
  function TitleOf(s: SongInfo): (r: string)
    ensures s.title.Some? && Text.Trim(s.title.value) != [] ==> r == s.title.value
    ensures s.title.None? || Text.Trim(s.title.value) == [] ==> r == LastComponent(s.file)
  {
    if s.title.Some? && Text.Trim(s.title.value) != [] then s.title.value else LastComponent(s.file)
  }

  /** The song item for an `lsinfo` song, unless its file name is hidden. */
  function SongOf(s: SongInfo): (r: Option<LibraryItem>)
    ensures r.Some? <==> !Hidden(LastComponent(s.file))
    ensures r.Some? ==> r.value == LibraryItem(TitleOf(s), Song, s.artist, s.durationMs, Some(s.file))
  {
    if Hidden(LastComponent(s.file)) then None
    else Some(LibraryItem(TitleOf(s), Song, s.artist, s.durationMs, Some(s.file)))
  }

  function FolderFn(path: string): Entry -> Option<LibraryItem> {
    (e: Entry) => FolderOf(path, e)
  }

  /** The folder items of a listing, in listing order. */
  function FolderItems(path: string, files: seq<Entry>): (r: seq<LibraryItem>)
    ensures |r| <= |files|
  {
    Lists.FilterMap(FolderFn(path), files)
  }

  /** The song items of a listing, in listing order. */
  function SongItems(songs: seq<SongInfo>): (r: seq<LibraryItem>)
    ensures |r| <= |songs|
  {
    Lists.FilterMap(SongOf, songs)
  }

  /** `item` is the folder item of one of the entries. */
  ghost predicate FromEntry(path: string, files: seq<Entry>, item: LibraryItem) {
    exists j :: 0 <= j < |files| && FolderOf(path, files[j]) == Some(item)
  }

  /** `item` is the song item of one of the songs. */
  ghost predicate FromSong(songs: seq<SongInfo>, item: LibraryItem) {
    exists j :: 0 <= j < |songs| && SongOf(songs[j]) == Some(item)
  }

  /** Every folder item is the item of some visible directory entry, and
      every visible directory entry gives one. */
  lemma FolderItemsFaithful(path: string, files: seq<Entry>)
    ensures forall k :: 0 <= k < |FolderItems(path, files)| ==> FromEntry(path, files, FolderItems(path, files)[k])
    ensures forall j :: 0 <= j < |files| && files[j].kind == DIRECTORY && !Hidden(LastComponent(files[j].name)) ==>
      FolderOf(path, files[j]).value in FolderItems(path, files)
  {
    var f := FolderFn(path);
    forall k | 0 <= k < |FolderItems(path, files)|
      ensures FromEntry(path, files, FolderItems(path, files)[k])
    {
      Lists.FilterMapFromInput(f, files, k);
      var j :| 0 <= j < |files| && f(files[j]) == Some(FolderItems(path, files)[k]);
      assert FolderOf(path, files[j]) == f(files[j]);
    }
    forall j | 0 <= j < |files| && files[j].kind == DIRECTORY && !Hidden(LastComponent(files[j].name))
      ensures FolderOf(path, files[j]).value in FolderItems(path, files)
    {
      Lists.FilterMapKeeps(f, files, j);
    }
  }

  /** Every song item is the item of some song with a visible file name,
      and every such song gives one. */
  lemma SongItemsFaithful(songs: seq<SongInfo>)
    ensures forall k :: 0 <= k < |SongItems(songs)| ==> FromSong(songs, SongItems(songs)[k])
    ensures forall j :: 0 <= j < |songs| && !Hidden(LastComponent(songs[j].file)) ==>
      SongOf(songs[j]).value in SongItems(songs)
  {
    var f := SongOf;
    forall k | 0 <= k < |SongItems(songs)|
      ensures FromSong(songs, SongItems(songs)[k])
    {
      Lists.FilterMapFromInput(f, songs, k);
      var j :| 0 <= j < |songs| && f(songs[j]) == Some(SongItems(songs)[k]);
      assert SongOf(songs[j]) == f(songs[j]);
    }
    forall j | 0 <= j < |songs| && !Hidden(LastComponent(songs[j].file))
      ensures SongOf(songs[j]).value in SongItems(songs)
    {
      Lists.FilterMapKeeps(f, songs, j);
    }
  }

  // ---------------------------------------------------------------------
  // Ordering
  // ---------------------------------------------------------------------

  /** `a <= b` for Rust's `str` ordering: lexicographic by character (the
      byte order of UTF-8 agrees with code-point order). */
  predicate LexLe(a: string, b: string)
    decreases |a|
  {
    a == [] || (b != [] && (a[0] < b[0] || (a[0] == b[0] && LexLe(a[1..], b[1..]))))
  }

  lemma {:induction false} LexLeTotal(a: string, b: string)
    ensures LexLe(a, b) || LexLe(b, a)
    decreases |a|
  {
    if a != [] && b != [] && a[0] == b[0] {
      LexLeTotal(a[1..], b[1..]);
    }
  }

  lemma {:induction false} LexLeTrans(a: string, b: string, c: string)
    requires LexLe(a, b) && LexLe(b, c)
    ensures LexLe(a, c)
    decreases |a|
  {
    if a != [] && b != [] && c != [] && a[0] == b[0] && b[0] == c[0] {
      LexLeTrans(a[1..], b[1..], c[1..]);
    }
  }

  /** The comparator's answer is not `Greater`: a folder before a song,
      a song never before a folder, otherwise by lower-cased name. */
  predicate Precedes(a: LibraryItem, b: LibraryItem) {
    if a.itemType == Folder && b.itemType == Song then true
    else if a.itemType == Song && b.itemType == Folder then false
    else LexLe(Text.Lower(a.name), Text.Lower(b.name))
  }

  /** The kinds the directory view holds; on them the comparator is a
      total preorder. */
  predicate Listed(x: LibraryItem) {
    x.itemType == Folder || x.itemType == Song
  }

  predicate AllListed(s: seq<LibraryItem>) {
    forall i :: 0 <= i < |s| ==> Listed(s[i])
  }

  predicate Sorted(s: seq<LibraryItem>) {
    forall i, j :: 0 <= i < j < |s| ==> Precedes(s[i], s[j])
  }

  lemma PrecedesTotal(a: LibraryItem, b: LibraryItem)
    ensures Precedes(a, b) || Precedes(b, a)
  {
    LexLeTotal(Text.Lower(a.name), Text.Lower(b.name));
  }

  lemma PrecedesTrans(a: LibraryItem, b: LibraryItem, c: LibraryItem)
    requires Listed(a) && Listed(b) && Listed(c)
    requires Precedes(a, b) && Precedes(b, c)
    ensures Precedes(a, c)
  {
    if a.itemType == b.itemType && b.itemType == c.itemType {
      LexLeTrans(Text.Lower(a.name), Text.Lower(b.name), Text.Lower(c.name));
    }
  }

  /** Insertion after every element that does not compare greater, so
      equal items keep their input order (as the stable `sort_by` does). */
  function Insert(x: LibraryItem, s: seq<LibraryItem>): (r: seq<LibraryItem>)
    ensures multiset(r) == multiset(s) + multiset{x}
    ensures |r| == |s| + 1
  {
    if s == [] then [x]
    else if !Precedes(s[0], x) then [x] + s
    else
      assert s == [s[0]] + s[1..];
      [s[0]] + Insert(x, s[1..])
  }

  function SortItems(s: seq<LibraryItem>): (r: seq<LibraryItem>)
    ensures multiset(r) == multiset(s)
    ensures |r| == |s|
  {
    if s == [] then []
    else
      assert s == s[..|s| - 1] + [s[|s| - 1]];
      Insert(s[|s| - 1], SortItems(s[..|s| - 1]))
  }

  lemma SortedCons(h: LibraryItem, t: seq<LibraryItem>)
    requires Sorted(t)
    requires forall k :: 0 <= k < |t| ==> Precedes(h, t[k])
    ensures Sorted([h] + t)
  {
    var s := [h] + t;
    forall i, j | 0 <= i < j < |s|
      ensures Precedes(s[i], s[j])
    {
      if i > 0 {
        assert s[i] == t[i - 1] && s[j] == t[j - 1];
      } else {
        assert s[j] == t[j - 1];
      }
    }
  }

  lemma {:induction false} InsertSorted(x: LibraryItem, s: seq<LibraryItem>)
    requires Listed(x) && AllListed(s) && Sorted(s)
    ensures Sorted(Insert(x, s))
    decreases |s|
  {
    if s == [] {
    } else if !Precedes(s[0], x) {
      PrecedesTotal(s[0], x);
      forall k | 0 <= k < |s|
        ensures Precedes(x, s[k])
      {
        if k > 0 {
          PrecedesTrans(x, s[0], s[k]);
        }
      }
      SortedCons(x, s);
    } else {
      var t := Insert(x, s[1..]);
      InsertSorted(x, s[1..]);
      forall k | 0 <= k < |t|
        ensures Precedes(s[0], t[k])
      {
        assert t[k] in multiset(t);
        if t[k] != x {
          assert t[k] in multiset(s[1..]);
          var m :| 0 <= m < |s[1..]| && s[1..][m] == t[k];
          assert s[m + 1] == t[k];
        }
      }
      SortedCons(s[0], t);
    }
  }

  lemma AllListedOfMultiset(s: seq<LibraryItem>, t: seq<LibraryItem>)
    requires AllListed(s) && multiset(t) == multiset(s)
    ensures AllListed(t)
  {
    forall i | 0 <= i < |t|
      ensures Listed(t[i])
    {
      assert t[i] in multiset(s);
    }
  }

  lemma {:induction false} SortItemsSorted(s: seq<LibraryItem>)
    requires AllListed(s)
    ensures Sorted(SortItems(s))
    decreases |s|
  {
    if s != [] {
      var init := s[..|s| - 1];
      assert AllListed(init);
      SortItemsSorted(init);
      AllListedOfMultiset(init, SortItems(init));
      InsertSorted(s[|s| - 1], SortItems(init));
    }
  }

  /** Sorted means: no song before a folder, and within one kind names
      ascend after lower-casing. */
  lemma SortedMeaning(s: seq<LibraryItem>)
    requires AllListed(s) && Sorted(s)
    ensures forall i, j :: 0 <= i < j < |s| ==> !(s[i].itemType == Song && s[j].itemType == Folder)
    ensures forall i, j :: 0 <= i < j < |s| && s[i].itemType == s[j].itemType ==>
      LexLe(Text.Lower(s[i].name), Text.Lower(s[j].name))
  {
  }

  /** `fetch_directory_items`: the visible folders of `path` and then its
      visible songs, sorted. A failed listing contributes nothing. */
  function FetchDirectoryItems(path: string, files: Option<seq<Entry>>, songs: Option<seq<SongInfo>>): (r: seq<LibraryItem>)
    ensures multiset(r) == multiset(FolderItems(path, files.GetOr([])) + SongItems(songs.GetOr([])))
    ensures forall i, j :: 0 <= i < j < |r| ==> !(r[i].itemType == Song && r[j].itemType == Folder)
    ensures forall i, j :: 0 <= i < j < |r| && r[i].itemType == r[j].itemType ==>
      LexLe(Text.Lower(r[i].name), Text.Lower(r[j].name))
  {
    var items := FolderItems(path, files.GetOr([])) + SongItems(songs.GetOr([]));
    ItemsListed(path, files.GetOr([]), songs.GetOr([]));
    SortItemsSorted(items);
    AllListedOfMultiset(items, SortItems(items));
    SortedMeaning(SortItems(items));
    SortItems(items)
  }

  /** Folder items are folders. */
  lemma FolderItemsAreFolders(path: string, files: seq<Entry>)
    ensures forall k :: 0 <= k < |FolderItems(path, files)| ==> FolderItems(path, files)[k].itemType == Folder
  {
    var a := FolderItems(path, files);
    forall k | 0 <= k < |a|
      ensures a[k].itemType == Folder
    {
      Lists.FilterMapFromInput(FolderFn(path), files, k);
      var j :| 0 <= j < |files| && FolderFn(path)(files[j]) == Some(a[k]);
      assert FolderOf(path, files[j]) == Some(a[k]);
    }
  }

  /** Song items are songs. */
  lemma SongItemsAreSongs(songs: seq<SongInfo>)
    ensures forall k :: 0 <= k < |SongItems(songs)| ==> SongItems(songs)[k].itemType == Song
  {
    var b := SongItems(songs);
    forall k | 0 <= k < |b|
      ensures b[k].itemType == Song
    {
      Lists.FilterMapFromInput(SongOf, songs, k);
      var j :| 0 <= j < |songs| && SongOf(songs[j]) == Some(b[k]);
    }
  }

  lemma ItemsListed(path: string, files: seq<Entry>, songs: seq<SongInfo>)
    ensures AllListed(FolderItems(path, files) + SongItems(songs))
  {
    var a := FolderItems(path, files);
    var b := SongItems(songs);
    FolderItemsAreFolders(path, files);
    SongItemsAreSongs(songs);
    forall i | 0 <= i < |a + b|
      ensures Listed((a + b)[i])
    {
      if i < |a| {
        assert (a + b)[i] == a[i];
      } else {
        assert (a + b)[i] == b[i - |a|];
      }
    }
  }
}
