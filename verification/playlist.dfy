/**
 * The playlist (src/playlist.cpp): items shown by file name and carrying
 * the full path, added only for the supported movie extensions and only
 * once per file name, with wrap-around previous/next navigation and the
 * saved list of paths it is rebuilt from. A file's existence on disk is an
 * oracle `onDisk`.
 */
module Playlist {
  import opened Base
  import Arith

  /** A list item: the text shown and the path it plays. */
  datatype Item = Item(name: string, path: string)

  /** The list and the row of the item playing. */
  datatype Playlist = Playlist(items: seq<Item>, current: int)

  /** The outcome of a play request: the list afterwards and the path
      emitted to the player, if any; or `NullItem` when the row asked for
      holds no item, so the source dereferences the null item it gets and the
      program ends. */
  datatype Navigated = Navigated(list: Playlist, played: Option<string>) | NullItem

  // ------------------------------------------------------------ file names

  /** The ASCII lower case of a character; other characters are kept. */
  function LowerChar(c: char): char
  {
    if 'A' <= c <= 'Z' then (c as int + 32) as char else c
  }

  /** The ASCII lower case of a string. */
  function Lower(s: string): (r: string)
    ensures |r| == |s| && forall i | 0 <= i < |s| :: r[i] == LowerChar(s[i])
  {
    if |s| == 0 then [] else [LowerChar(s[0])] + Lower(s[1..])
  }

  /** Case-insensitive `endsWith` for a lower-case suffix. */
  predicate EndsWithIgnoringCase(s: string, suffix: string)
  {
    |suffix| <= |s| && Lower(s[|s| - |suffix|..]) == suffix
  }

  /** The movie extensions the list accepts. */
  const MOVIE_EXTENSIONS: seq<string> := [".mkv", ".rmvb", ".mp4", ".avi", ".flv", ".wmv", ".3gp"]

  /** Whether the name ends with one of the extensions, in any case. */
  predicate EndsWithAny(fileName: string, extensions: seq<string>)
  {
    |extensions| > 0 &&
    (EndsWithIgnoringCase(fileName, extensions[0]) || EndsWithAny(fileName, extensions[1..]))
  }

  /** The file name ends with one of the movie extensions, in any case. */
  predicate IsSupportedMovie(fileName: string)
    ensures IsSupportedMovie(fileName) <==>
              exists i | 0 <= i < |MOVIE_EXTENSIONS| :: EndsWithIgnoringCase(fileName, MOVIE_EXTENSIONS[i])
  {
    EndsWithAnyIff(fileName, MOVIE_EXTENSIONS);
    EndsWithAny(fileName, MOVIE_EXTENSIONS)
  }

  /** The chain of endsWith tests holds exactly when one of them does. */
  lemma {:induction false} EndsWithAnyIff(fileName: string, extensions: seq<string>)
    ensures EndsWithAny(fileName, extensions) <==>
              exists i | 0 <= i < |extensions| :: EndsWithIgnoringCase(fileName, extensions[i])
    decreases |extensions|
  {
    if |extensions| > 0 {
      var rest := extensions[1..];
      EndsWithAnyIff(fileName, rest);
      if EndsWithAny(fileName, rest) {
        var j :| 0 <= j < |rest| && EndsWithIgnoringCase(fileName, rest[j]);
        assert extensions[j + 1] == rest[j];
      }
      if exists i | 0 <= i < |extensions| :: EndsWithIgnoringCase(fileName, extensions[i]) {
        var i :| 0 <= i < |extensions| && EndsWithIgnoringCase(fileName, extensions[i]);
        if i > 0 {
          assert rest[i - 1] == extensions[i];
        }
      }
    }
  }

  /** Where the file name in `path[..i]` starts: just after the last '/'
      before position i, or 0 when there is none. */
  function NameStart(path: string, i: int): (k: int)
    requires 0 <= i <= |path|
    ensures 0 <= k <= i
    ensures k == 0 || path[k - 1] == '/'
    ensures forall j | k <= j < i :: path[j] != '/'
  {
    if i == 0 || path[i - 1] == '/' then i else NameStart(path, i - 1)
  }

  /** QFileInfo::fileName: what follows the last '/'. */
  function FileName(path: string): (r: string)
    ensures forall j | 0 <= j < |r| :: r[j] != '/'
    ensures |r| <= |path| && r == path[|path| - |r|..]
  {
    path[NameStart(path, |path|)..]
  }

  /** The file name is the whole path or follows a '/': it is the longest
      '/'-free suffix. */
  lemma FileNameFollowsSlash(path: string)
    ensures var r := FileName(path);
            |r| < |path| ==> path[|path| - |r| - 1] == '/'
  {
    var k := NameStart(path, |path|);
    assert FileName(path) == path[k..];
  }

  /** The item the list makes for a path. */
  function ItemFor(path: string): Item
  {
    Item(FileName(path), path)
  }

  // --------------------------------------------------------------- adding

  /** findItems(name, MatchExactly), first hit: the first row showing the name. */
  function FindItem(items: seq<Item>, name: string): (r: Option<int>)
    ensures r.None? <==> forall j | 0 <= j < |items| :: items[j].name != name
    ensures r.Some? ==> 0 <= r.value < |items| && items[r.value].name == name
    ensures r.Some? ==> forall j | 0 <= j < r.value :: items[j].name != name
  {
    if |items| == 0 then None
    else if items[0].name == name then Some(0)
    else match FindItem(items[1..], name)
      case None => None
      case Some(j) => Some(j + 1)
  }

  /** OnAddFile: ignore an unsupported file; otherwise append an item for it
      unless an item already shows its file name. */
  function AddFile(items: seq<Item>, path: string): (r: seq<Item>)
    ensures !IsSupportedMovie(path) ==> r == items
    ensures FindItem(items, FileName(path)).Some? ==> r == items
    ensures IsSupportedMovie(path) && FindItem(items, FileName(path)).None? ==> r == items + [ItemFor(path)]
  {
    if !IsSupportedMovie(path) then items
    else match FindItem(items, FileName(path))
      case None => items + [ItemFor(path)]
      case Some(_) => items
  }

  /** Every item shows a different file name. */
  predicate DistinctNames(items: seq<Item>)
  {
    forall i, j | 0 <= i < j < |items| :: items[i].name != items[j].name
  }

  /** An item made for a supported movie's path. */
  predicate Made(item: Item)
  {
    item == ItemFor(item.path) && IsSupportedMovie(item.path)
  }

  /** Every item was made from its path, for a supported movie. */
  predicate MadeByAdding(items: seq<Item>)
  {
    forall i | 0 <= i < |items| :: Made(items[i])
  }

  /** Adding keeps the items there are, in order, adds at most one, keeps
      file names distinct and keeps every item made from a supported path. */
  lemma AddFileInvariant(items: seq<Item>, path: string)
    requires DistinctNames(items) && MadeByAdding(items)
    ensures var r := AddFile(items, path);
            && items <= r && |r| <= |items| + 1
            && DistinctNames(r) && MadeByAdding(r)
  {
    var name := FileName(path);
    var r := AddFile(items, path);
    if IsSupportedMovie(path) && FindItem(items, name).None? {
      assert r == items + [ItemFor(path)];
      AppendKeepsDistinct(items, ItemFor(path));
      AppendKeepsMade(items, path);
    } else {
      assert r == items;
    }
  }

  /** After adding, a supported file's name is on the list. */
  lemma AddFileFinds(items: seq<Item>, path: string)
    requires IsSupportedMovie(path)
    ensures FindItem(AddFile(items, path), FileName(path)).Some?
  {
    if FindItem(items, FileName(path)).None? {
      var r := items + [ItemFor(path)];
      assert r[|items|].name == FileName(path);
    }
  }

  lemma AppendKeepsDistinct(items: seq<Item>, item: Item)
    requires DistinctNames(items)
    requires forall j | 0 <= j < |items| :: items[j].name != item.name
    ensures DistinctNames(items + [item])
  {
    var r := items + [item];
    forall i, j | 0 <= i < j < |r|
      ensures r[i].name != r[j].name
    {
      assert r[i] == items[i];
      if j < |items| {
        assert r[j] == items[j];
      }
    }
  }

  lemma MadeFor(path: string)
    requires IsSupportedMovie(path)
    ensures Made(ItemFor(path))
  {
  }

  lemma AppendKeepsMade(items: seq<Item>, path: string)
    requires MadeByAdding(items) && IsSupportedMovie(path)
    ensures MadeByAdding(items + [ItemFor(path)])
  {
    MadeFor(path);
    var r := items + [ItemFor(path)];
    assert r[|items|] == ItemFor(path);
    forall i | 0 <= i < |items|
      ensures Made(r[i])
    {
      assert r[i] == items[i];
    }
  }

  /** Adding the same file twice adds it once. */
  lemma AddFileIdempotent(items: seq<Item>, path: string)
    ensures AddFile(AddFile(items, path), path) == AddFile(items, path)
  {
    if IsSupportedMovie(path) && FindItem(items, FileName(path)).None? {
      var r := items + [ItemFor(path)];
      assert r[|items|].name == FileName(path);
    }
  }

  /** on_List_itemDoubleClicked on `ui->List->item(row)`: play the row's path
      and make it the current row; a row outside the list yields a null item,
      which the handler dereferences. */
  function PlayRow(list: Playlist, row: int): (r: Navigated)
    ensures r.NullItem? <==> !(0 <= row < |list.items|)
    ensures r.Navigated? ==> r.list == list.(current := row) && r.played == Some(list.items[row].path)
  {
    if 0 <= row < |list.items| then Navigated(list.(current := row), Some(list.items[row].path))
    else NullItem
  }

  /** OnAddFileAndPlay: add as OnAddFile does, then play the row showing the
      file's name: the new last row, or else the first row already showing
      it (a loaded list may show a name twice). */
  function AddFileAndPlay(list: Playlist, path: string): (r: Navigated)
    ensures !IsSupportedMovie(path) ==> r == Navigated(list, None)
    ensures IsSupportedMovie(path) ==>
              && r.Navigated?
              && r.list.items == AddFile(list.items, path)
              && 0 <= r.list.current < |r.list.items|
              && r.list.items[r.list.current].name == FileName(path)
              && r.played == Some(r.list.items[r.list.current].path)
    ensures IsSupportedMovie(path) && FindItem(list.items, FileName(path)).None? ==>
              r.list.current == |list.items| && r.played == Some(path)
    ensures IsSupportedMovie(path) && FindItem(list.items, FileName(path)).Some? ==>
              r.list.current == FindItem(list.items, FileName(path)).value
  {
    if !IsSupportedMovie(path) then Navigated(list, None)
    else
      var items := AddFile(list.items, path);
      match FindItem(list.items, FileName(path))
      case None => PlayRow(Playlist(items, list.current), |list.items|)
      case Some(row) => PlayRow(Playlist(items, list.current), row)
  }

  /** A file whose name is already on the list plays the listed path, even
      when it lives in another folder. */
  lemma SameNamePlaysListedPath()
    ensures var list := Playlist([ItemFor("/a/x.mp4")], 0);
            AddFileAndPlay(list, "/b/x.mp4") == Navigated(list, Some("/a/x.mp4"))
  {
    var list := Playlist([ItemFor("/a/x.mp4")], 0);
    NameAfterFolder("/a/x.mp4");
    NameAfterFolder("/b/x.mp4");
    LowerMatches(".mp4", ".mp4");
    assert "/b/x.mp4"[4..] == ".mp4";
    EndsWithListed("/b/x.mp4", MOVIE_EXTENSIONS, 2);
    assert FindItem(list.items, "x.mp4") == Some(0);
  }

  /** The file name of a path "/?/x.mp4". */
  lemma NameAfterFolder(path: string)
    requires |path| == 8 && path[0] == path[2] == '/' && path[1] != '/' && path[3..] == "x.mp4"
    ensures FileName(path) == "x.mp4"
  {
    assert NameStart(path, 4) == 3;
    assert NameStart(path, 8) == 3;
  }

  /** Names in any letter case pass the extension filter. */
  lemma ExtensionFilterIgnoresCase()
    ensures IsSupportedMovie("Clip.MKV") && IsSupportedMovie("a.3Gp")
  {
    LowerMatches(".MKV", ".mkv");
    assert "Clip.MKV"[4..] == ".MKV";
    EndsWithListed("Clip.MKV", MOVIE_EXTENSIONS, 0);
    LowerMatches(".3Gp", ".3gp");
    assert "a.3Gp"[1..] == ".3Gp";
    EndsWithListed("a.3Gp", MOVIE_EXTENSIONS, 6);
  }

  /** A string and a lower-case one of the same length that agree letter by
      letter once lowered. */
  lemma LowerMatches(s: string, lower: string)
    requires |s| == |lower| && forall i | 0 <= i < |s| :: LowerChar(s[i]) == lower[i]
    ensures Lower(s) == lower
  {
  }

  /** Ending with any one of the extensions is enough. */
  lemma {:induction false} EndsWithListed(fileName: string, extensions: seq<string>, k: int)
    requires 0 <= k < |extensions| && EndsWithIgnoringCase(fileName, extensions[k])
    ensures EndsWithAny(fileName, extensions)
    decreases k
  {
    if k > 0 {
      EndsWithListed(fileName, extensions[1..], k - 1);
    }
  }

  /** A name without a dot is never a supported movie: every extension
      starts with one. */
  lemma NoDotNoMovie(fileName: string)
    requires forall j | 0 <= j < |fileName| :: fileName[j] != '.'
    ensures !IsSupportedMovie(fileName)
  {
    NoDotEndsWithNone(fileName, MOVIE_EXTENSIONS);
  }

  lemma {:induction false} NoDotEndsWithNone(fileName: string, extensions: seq<string>)
    requires forall j | 0 <= j < |fileName| :: fileName[j] != '.'
    requires forall k | 0 <= k < |extensions| :: |extensions[k]| > 0 && extensions[k][0] == '.'
    ensures !EndsWithAny(fileName, extensions)
  {
    if |extensions| > 0 {
      var ext := extensions[0];
      if |ext| <= |fileName| {
        var tail := fileName[|fileName| - |ext|..];
        assert Lower(tail)[0] == LowerChar(tail[0]) != '.';
      }
      NoDotEndsWithNone(fileName, extensions[1..]);
    }
  }

  // ----------------------------------------------------------- navigation

  /** OnForwardPlay: from the last row to the first, otherwise one row on;
      the program ends on a null item when that row is not on the list. */
  function ForwardPlay(list: Playlist): (r: Navigated)
    ensures r.NullItem? <==> |list.items| == 0 || !(-1 <= list.current < |list.items|)
    ensures 0 <= list.current < |list.items| ==> r.Navigated? && 0 <= r.list.current < |list.items|
    ensures r.Navigated? ==> r.list.items == list.items && 0 <= r.list.current < |list.items|
    ensures r.Navigated? ==> r.played == Some(list.items[r.list.current].path)
    ensures r.Navigated? && list.current == |list.items| - 1 ==> r.list.current == 0
    ensures r.Navigated? && list.current != |list.items| - 1 ==> r.list.current == list.current + 1
  {
    PlayRow(list, if list.current == |list.items| - 1 then 0 else list.current + 1)
  }

  /** OnBackwardPlay: from the first row to the last, otherwise one row back;
      the program ends on a null item when that row is not on the list. */
  function BackwardPlay(list: Playlist): (r: Navigated)
    ensures r.NullItem? <==> |list.items| == 0 || !(0 <= list.current <= |list.items|)
    ensures 0 <= list.current < |list.items| ==> r.Navigated? && 0 <= r.list.current < |list.items|
    ensures r.Navigated? ==> r.list.items == list.items && 0 <= r.list.current < |list.items|
    ensures r.Navigated? ==> r.played == Some(list.items[r.list.current].path)
    ensures r.Navigated? && list.current == 0 ==> r.list.current == |list.items| - 1
    ensures r.Navigated? && list.current != 0 ==> r.list.current == list.current - 1
  {
    PlayRow(list, if list.current == 0 then |list.items| - 1 else list.current - 1)
  }

  /** Back undoes forward and forward undoes back on a row of the list. */
  lemma ForwardBackwardInverse(list: Playlist)
    requires 0 <= list.current < |list.items|
    ensures BackwardPlay(ForwardPlay(list).list).list == list
    ensures ForwardPlay(BackwardPlay(list).list).list == list
  {
  }

  /** On an empty list either button asks for a row that is not there, and
      the program ends on the null item. */
  lemma EmptyListDereferencesNull(current: int)
    ensures ForwardPlay(Playlist([], current)).NullItem?
    ensures BackwardPlay(Playlist([], current)).NullItem?
  {
  }

  /** Stepping forward n times from row i lands on row (i + n) mod count. */
  function ForwardTimes(list: Playlist, n: nat): (r: Playlist)
    requires 0 <= list.current < |list.items|
    decreases n
  {
    if n == 0 then list else ForwardTimes(ForwardPlay(list).list, n - 1)
  }

  lemma {:induction false} ForwardCycles(list: Playlist, n: nat)
    requires 0 <= list.current < |list.items|
    ensures ForwardTimes(list, n).items == list.items
    ensures ForwardTimes(list, n).current == (list.current + n) % |list.items|
    decreases n
  {
    if n > 0 {
      var count := |list.items|;
      var next := ForwardPlay(list).list;
      ForwardCycles(next, n - 1);
      assert ForwardTimes(list, n) == ForwardTimes(next, n - 1);
      if list.current == count - 1 {
        Arith.ModUnique(list.current + 1, 1, 0, count);
      } else {
        Arith.ModUnique(list.current + 1, 0, list.current + 1, count);
      }
      Arith.ModAddLeft(list.current + 1, n - 1, count);
    }
  }

  // ------------------------------------------------------------ saved list

  /** What the destructor saves: every item's path, in order. */
  function SavePlaylist(items: seq<Item>): (r: seq<string>)
    ensures |r| == |items| && forall i | 0 <= i < |items| :: r[i] == items[i].path
  {
    if |items| == 0 then [] else [items[0].path] + SavePlaylist(items[1..])
  }

  /** `a` is `b` with some elements left out, the rest in their order. */
  predicate IsSubsequence<T(==)>(a: seq<T>, b: seq<T>)
    decreases |b|
  {
    |a| == 0 || (|b| > 0 &&
      if a[0] == b[0] then IsSubsequence(a[1..], b[1..]) else IsSubsequence(a, b[1..]))
  }

  /** InitUi: an item for every saved path whose file exists, in order, with
      neither the extension filter nor the duplicate check. */
  function LoadPlaylist(paths: seq<string>, onDisk: string -> bool): (r: seq<Item>)
    ensures |r| <= |paths|
    ensures forall i | 0 <= i < |r| :: r[i] == ItemFor(r[i].path) && onDisk(r[i].path)
  {
    if |paths| == 0 then []
    else if onDisk(paths[0]) then [ItemFor(paths[0])] + LoadPlaylist(paths[1..], onDisk)
    else LoadPlaylist(paths[1..], onDisk)
  }

  /** Loading keeps exactly the saved paths whose files exist: each one as
      often as it was saved, none other, and in the saved order. */
  lemma {:induction false} LoadKeepsExisting(paths: seq<string>, onDisk: string -> bool)
    ensures forall p :: multiset(SavePlaylist(LoadPlaylist(paths, onDisk)))[p] ==
                        if onDisk(p) then multiset(paths)[p] else 0
    ensures IsSubsequence(SavePlaylist(LoadPlaylist(paths, onDisk)), paths)
  {
    if |paths| > 0 {
      LoadKeepsExisting(paths[1..], onDisk);
      var rest := LoadPlaylist(paths[1..], onDisk);
      var saved := SavePlaylist(rest);
      assert paths == [paths[0]] + paths[1..];
      assert multiset(paths) == multiset{paths[0]} + multiset(paths[1..]);
      if onDisk(paths[0]) {
        var r := [ItemFor(paths[0])] + rest;
        assert r[1..] == rest;
        assert SavePlaylist(r) == [paths[0]] + saved;
        assert multiset(SavePlaylist(r)) == multiset{paths[0]} + multiset(saved);
        assert SavePlaylist(r)[1..] == saved;
      } else {
        assert |saved| > 0 ==> saved[0] == rest[0].path && onDisk(saved[0]);
      }
    }
  }

  /** A list built by adding files comes back unchanged from its saved
      paths when all the files still exist. */
  lemma {:induction false} SaveLoadRoundTrip(items: seq<Item>, onDisk: string -> bool)
    requires MadeByAdding(items)
    requires forall i | 0 <= i < |items| :: onDisk(items[i].path)
    ensures LoadPlaylist(SavePlaylist(items), onDisk) == items
  {
    if |items| > 0 {
      SaveLoadRoundTrip(items[1..], onDisk);
      assert SavePlaylist(items)[1..] == SavePlaylist(items[1..]);
      assert [items[0]] + items[1..] == items;
    }
  }
}
