/**
 * The file viewer's folder display (`FileViewerApp.display_folder_contents` and the two
 * filter handlers): the entries of a directory listing are sorted into one tab per
 * category of the viewer's own table, the first matching category winning; other
 * entries are not shown at all.
 */
module FolderView {
  import opened Wrappers
  import opened Text
  import opened Categories

  /** `FILE_CATEGORIES` of file_viewer_gui/ui_components.py, in its order (one tab each). */
  const ViewerTable: seq<Category> := [
    Category("图像", [".jpg", ".jpeg", ".png", ".gif"]),
    Category("视频", [".mp4", ".avi", ".mkv"]),
    Category("音频", [".mp3", ".wav", ".aac", ".flac"]),
    Category("HTML", [".html", ".htm"]),
    Category("文档", [".txt", ".pdf", ".docx", ".doc", ".wps", ".xls", ".xlsx", ".csv",
                    ".pptx", ".ppt", ".epub", ".mobi", ".azw3"])
  ]

  /** What the viewer can see of the disk: the listing of each readable folder, and the regular files. */
  datatype Disk = Disk(listings: map<Path, seq<string>>, files: set<Path>)

  /** The tab an entry of `folder` goes to: `None` for non-files and unlisted extensions. */
  function Slot(table: seq<Category>, folder: Path, files: set<Path>, name: string): Option<nat> {
    if Join(folder, name) in files then FirstMatch(table, Lower(Ext(name))) else None
  }

  /** The paths of the entries of `names` that `slot` sends to `k`, in listing order. */
  function Picks(slot: string -> Option<nat>, folder: Path, names: seq<string>, k: nat): seq<Path>
    decreases |names|
  {
    if names == [] then []
    else
      var last := names[|names| - 1];
      Picks(slot, folder, names[..|names| - 1], k) + (if slot(last) == Some(k) then [Join(folder, last)] else [])
  }

  /** `categorized_files[category]` after the loop over `names`: the paths of its entries, in listing order. */
  function Bucket(table: seq<Category>, folder: Path, files: set<Path>, names: seq<string>, k: nat): seq<Path> {
    Picks((name: string) => Slot(table, folder, files, name), folder, names, k)
  }

  /** One bucket per category, in table order. */
  function Buckets(table: seq<Category>, folder: Path, files: set<Path>, names: seq<string>): (r: seq<seq<Path>>)
    ensures |r| == |table|
  {
    seq(|table|, k requires 0 <= k < |table| => Bucket(table, folder, files, names, k))
  }

  /** Every tab empty: the state right after the tabs are cleared. */
  function EmptyTabs(n: nat): (r: seq<seq<Path>>)
    ensures |r| == n
  {
    seq(n, k requires 0 <= k < n => [])
  }

  /** The number of entries across all buckets. */
  function Total(bs: seq<seq<Path>>): nat {
    if bs == [] then 0 else |bs[0]| + Total(bs[1..])
  }

  /** Appending one path to one bucket adds one to the total. */
  lemma {:induction false} TotalAppend(bs: seq<seq<Path>>, k: nat, p: Path)
    requires k < |bs|
    ensures Total(bs[k := bs[k] + [p]]) == Total(bs) + 1
  {
    if k > 0 {
      assert bs[k := bs[k] + [p]][1..] == bs[1..][k - 1 := bs[1..][k - 1] + [p]];
      TotalAppend(bs[1..], k - 1, p);
    }
  }

  lemma {:induction false} TotalEmpty(n: nat)
    ensures Total(EmptyTabs(n)) == 0
  {
    if n > 0 {
      assert EmptyTabs(n)[1..] == EmptyTabs(n - 1);
      TotalEmpty(n - 1);
    }
  }

  /**
   * The `try` block of `display_folder_contents`: list the folder and append each regular
   * file to the first bucket whose list holds its lower-cased extension.  `None` when the
   * listing fails.
   */
  method Categorize(table: seq<Category>, disk: Disk, folder: Path) returns (r: Option<(seq<seq<Path>>, nat)>)
    ensures folder !in disk.listings <==> r.None?
    ensures r.Some? ==> r.value.0 == Buckets(table, folder, disk.files, disk.listings[folder])
    ensures r.Some? ==> r.value.1 == Total(r.value.0)
  {
    if folder !in disk.listings {
      return None;
    }
    var names := disk.listings[folder];
    var categorized := EmptyTabs(|table|);
    TotalEmpty(|table|);
    var fileCount := 0;
    for i := 0 to |names|
      invariant |categorized| == |table|
      invariant forall k :: 0 <= k < |table| ==> categorized[k] == Bucket(table, folder, disk.files, names[..i], k)
      invariant fileCount == Total(categorized)
    {
      var itemPath := Join(folder, names[i]);
      ghost var before := categorized;
      if itemPath in disk.files {
        var ext := Lower(Ext(names[i]));
        var found := Lookup(table, ext);
        if found.Some? {
          TotalAppend(categorized, found.value, itemPath);
          categorized := categorized[found.value := categorized[found.value] + [itemPath]];
          fileCount := fileCount + 1;
        }
      }
      CategorizeStep(table, folder, disk.files, names, i, before, categorized);
    }
    assert names[..|names|] == names;
    r := Some((categorized, fileCount));
  }

  /** One more entry: only the bucket of its slot grows, by its path. */
  lemma CategorizeStep(table: seq<Category>, folder: Path, files: set<Path>, names: seq<string>, i: nat,
                       before: seq<seq<Path>>, after: seq<seq<Path>>)
    requires i < |names| && |before| == |table|
    requires forall k :: 0 <= k < |table| ==> before[k] == Bucket(table, folder, files, names[..i], k)
    requires var slot := Slot(table, folder, files, names[i]);
             after == if slot.Some? then before[slot.value := before[slot.value] + [Join(folder, names[i])]] else before
    ensures |after| == |table|
    ensures forall k :: 0 <= k < |table| ==> after[k] == Bucket(table, folder, files, names[..i + 1], k)
  {
    assert names[..i + 1][..i] == names[..i];
  }

  // -------------------------------------------------------------- properties

  lemma {:induction false} PicksMembers(slot: string -> Option<nat>, folder: Path, names: seq<string>, k: nat, p: Path)
    ensures p in Picks(slot, folder, names, k)
            <==> exists i :: 0 <= i < |names| && slot(names[i]) == Some(k) && p == Join(folder, names[i])
    decreases |names|
  {
    if names != [] {
      var init := names[..|names| - 1];
      PicksMembers(slot, folder, init, k, p);
      assert forall i :: 0 <= i < |init| ==> init[i] == names[i];
    }
  }

  /** A path is in bucket `k` exactly when some listed entry is a regular file whose first match is `k`. */
  lemma BucketMembers(table: seq<Category>, folder: Path, files: set<Path>, names: seq<string>, k: nat, p: Path)
    ensures p in Bucket(table, folder, files, names, k)
            <==> exists i :: 0 <= i < |names| && Slot(table, folder, files, names[i]) == Some(k) && p == Join(folder, names[i])
  {
    PicksMembers((name: string) => Slot(table, folder, files, name), folder, names, k, p);
  }

  /** What the buckets hold are regular files with a listed extension. */
  lemma OnlyListedFiles(table: seq<Category>, folder: Path, files: set<Path>, names: seq<string>, k: nat, p: Path)
    requires p in Bucket(table, folder, files, names, k)
    ensures p in files && k < |table|
    ensures exists i :: 0 <= i < |names| && p == Join(folder, names[i])
                        && Lower(Ext(names[i])) in table[k].exts
  {
    BucketMembers(table, folder, files, names, k, p);
  }

  /** A regular file with a listed extension is in the bucket of its first match and in no other. */
  lemma ExactlyOneBucket(table: seq<Category>, folder: Path, files: set<Path>, names: seq<string>, i: nat)
    requires i < |names| && Slot(table, folder, files, names[i]).Some?
    requires forall j :: 0 <= j < |names| ==> |names[j]| > 0 && names[j][0] != '/'
    ensures var k := Slot(table, folder, files, names[i]).value;
            k < |table|
            && (forall j :: 0 <= j < k ==> Lower(Ext(names[i])) !in table[j].exts)
            && forall m :: Join(folder, names[i]) in Bucket(table, folder, files, names, m) <==> m == k
  {
    var k := Slot(table, folder, files, names[i]).value;
    var p := Join(folder, names[i]);
    forall m: nat
      ensures p in Bucket(table, folder, files, names, m) <==> m == k
    {
      BucketMembers(table, folder, files, names, m, p);
      if p in Bucket(table, folder, files, names, m) {
        var j :| 0 <= j < |names| && Slot(table, folder, files, names[j]) == Some(m) && p == Join(folder, names[j]);
        if names[j] != names[i] {
          JoinInjective(folder, names[j], names[i]);
        }
      }
    }
  }

  lemma {:induction false} PicksPrefix(slot: string -> Option<nat>, folder: Path, names: seq<string>, n: nat, k: nat)
    requires n <= |names|
    ensures Picks(slot, folder, names[..n], k) <= Picks(slot, folder, names, k)
    decreases |names| - n
  {
    if n < |names| {
      var init := names[..|names| - 1];
      assert init[..n] == names[..n];
      PicksPrefix(slot, folder, init, n, k);
    } else {
      assert names[..n] == names;
    }
  }

  /** What is bucketed from a prefix of the listing stays at the front: buckets keep listing order. */
  lemma BucketPrefix(table: seq<Category>, folder: Path, files: set<Path>, names: seq<string>, n: nat, k: nat)
    requires n <= |names|
    ensures Bucket(table, folder, files, names[..n], k) <= Bucket(table, folder, files, names, k)
  {
    PicksPrefix((name: string) => Slot(table, folder, files, name), folder, names, n, k);
  }

  /** Entries that are not regular files are in no bucket. */
  lemma NonFilesSkipped(table: seq<Category>, folder: Path, files: set<Path>, names: seq<string>, k: nat, p: Path)
    requires p !in files
    ensures p !in Bucket(table, folder, files, names, k)
  {
    if p in Bucket(table, folder, files, names, k) {
      OnlyListedFiles(table, folder, files, names, k, p);
    }
  }

  /** ".md" and ".mov" are in no list of the viewer (the drag manager does list them): no tab shows them. */
  lemma UnlistedExtensions()
    ensures FirstMatch(ViewerTable, ".md") == None
    ensures FirstMatch(ViewerTable, ".mov") == None
  {
    assert ViewerTable[0].exts == [".jpg", ".jpeg", ".png", ".gif"];
    assert ViewerTable[1].exts == [".mp4", ".avi", ".mkv"];
    assert ViewerTable[2].exts == [".mp3", ".wav", ".aac", ".flac"];
    assert ViewerTable[3].exts == [".html", ".htm"];
    assert ".md" !in ViewerTable[4].exts && ".mov" !in ViewerTable[4].exts;
    assert forall j :: 0 <= j < |ViewerTable| ==> ".md" !in ViewerTable[j].exts && ".mov" !in ViewerTable[j].exts;
  }

  // ----------------------------------------------------------------- window

  /** What the tabs show after displaying `folder`: its buckets, or nothing when it cannot be listed. */
  function View(disk: Disk, folder: Path): seq<seq<Path>> {
    if folder in disk.listings then Buckets(ViewerTable, folder, disk.files, disk.listings[folder])
    else EmptyTabs(|ViewerTable|)
  }

  /** `FileViewerApp`: the filters, the remembered folder and the content of the five tabs. */
  class FileViewerApp {
    var timeFilter: string
    var nameFilter: string
    var lastFolder: Option<Path>
    var tabs: seq<seq<Path>>

    /** `__init__`: default filters, empty tabs, and the folder the configuration file remembers (`remembered`). */
    constructor (remembered: Option<Path>)
      ensures timeFilter == "全部时间" && nameFilter == "" && lastFolder == remembered && tabs == EmptyTabs(|ViewerTable|)
    {
      timeFilter := "全部时间";
      nameFilter := "";
      lastFolder := remembered;
      tabs := EmptyTabs(|ViewerTable|);
    }

    /** `display_folder_contents`: clear every tab, then show the buckets, unless listing fails. */
    method DisplayFolderContents(disk: Disk, folder: Path)
      modifies this
      ensures tabs == View(disk, folder)
      ensures timeFilter == old(timeFilter) && nameFilter == old(nameFilter) && lastFolder == old(lastFolder)
    {
      tabs := EmptyTabs(|ViewerTable|);
      var r := Categorize(ViewerTable, disk, folder);
      if r.None? {
        return;
      }
      tabs := r.value.0;
    }

    /** Whether `if self.last_folder:` holds: a folder is remembered and it is not "". */
    predicate HasFolder()
      reads this
    {
      lastFolder.Some? && lastFolder.value != ""
    }

    /** `on_time_filter_changed`: store the text, then redisplay the remembered folder. */
    method OnTimeFilterChanged(disk: Disk, text: string)
      modifies this
      ensures timeFilter == text && nameFilter == old(nameFilter) && lastFolder == old(lastFolder)
      ensures tabs == if old(HasFolder()) then View(disk, old(lastFolder).value) else old(tabs)
    {
      timeFilter := text;
      if HasFolder() {
        DisplayFolderContents(disk, lastFolder.value);
      }
    }

    /** `on_name_filter_changed`: store the text, then redisplay the remembered folder. */
    method OnNameFilterChanged(disk: Disk, text: string)
      modifies this
      ensures nameFilter == text && timeFilter == old(timeFilter) && lastFolder == old(lastFolder)
      ensures tabs == if old(HasFolder()) then View(disk, old(lastFolder).value) else old(tabs)
    {
      nameFilter := text;
      if HasFolder() {
        DisplayFolderContents(disk, lastFolder.value);
      }
    }
  }
}
