/**
 * The file-transfer engine of the drag manager (`FileTransferThread.run` in
 * FileDragManager/utils.py): it classifies every queued file by extension,
 * chooses its new name, moves it into the target directory (or a category
 * sub-directory of it) and reports each file as moved or failed.
 *
 * The filesystem is an object with a set of directories, a set of files and
 * two fault tables that say which `makedirs` and which moves raise, with what
 * message.  The thread's signals become a trace of `Signal` values.  The wall
 * clock is an input: `clock(i)` is what `datetime.now()` formats to while the
 * `i`-th queued file is handled.
 */
module Transfer {
  import opened Wrappers
  import opened Text
  import opened Categories

  // ------------------------------------------------------------ the tables

  /** The category given to a file whose extension is in no list. */
  const Other: string := "其他"

  /** `FILE_CATEGORIES` of FileDragManager/utils.py, in its order. */
  const DragTable: seq<Category> := [
    Category("图像", [".jpg", ".jpeg", ".png", ".gif"]),
    Category("视频", [".mp4", ".mov", ".avi", ".mkv", ".flv", ".wmv"]),
    Category("音频", [".mp3", ".wav", ".flac", ".aac"]),
    Category("HTML", [".html", ".htm"]),
    Category("文档", [".pdf", ".doc", ".docx", ".xls", ".xlsx", ".ppt", ".pptx",
                    ".txt", ".md", ".epub", ".mobi", ".azw3", ".chm"])
  ]

  /** `EN_CATEGORY_MAP`: table key to folder name. */
  const EnCategoryMap: map<string, string> := map[
    "图像" := "images", "视频" := "videos", "音频" := "audios",
    "HTML" := "htmls", "文档" := "documents"]

  /** `EN_CATEGORY_MAP.values()`, in the dict's insertion order. */
  const CategoryFolders: seq<string> := ["images", "videos", "audios", "htmls", "documents"]

  const SecondPattern: string := "秒级时间戳+序号"
  const MilliPattern: string := "毫秒级时间戳+序号"

  const DirFailTitle: string := "目录创建失败"
  const TargetDirFailPrefix: string := "无法创建目标目录: "
  const CategoryDirFailPrefix: string := "无法创建分类目录: "
  const MovingPrefix: string := "正在移动: "

  lemma CategoryFoldersAreMapValues()
    ensures forall f :: f in CategoryFolders <==> f in EnCategoryMap.Values
    ensures forall i :: 0 <= i < |DragTable| ==> DragTable[i].key in EnCategoryMap
  {
    assert EnCategoryMap["图像"] == "images" && EnCategoryMap["视频"] == "videos";
    assert EnCategoryMap["音频"] == "audios" && EnCategoryMap["HTML"] == "htmls";
    assert EnCategoryMap["文档"] == "documents";
  }

  /** Every key of the table has a folder name. */
  predicate Named(table: seq<Category>) {
    forall i :: 0 <= i < |table| ==> table[i].key in EnCategoryMap
  }

  /** The category loop over `table`: the first list holding `ext` gives its folder name, `Other` when none does. */
  function CategoryIn(table: seq<Category>, ext: string): string
    requires Named(table)
  {
    if table == [] then Other
    else if ext in table[0].exts then EnCategoryMap[table[0].key]
    else CategoryIn(table[1..], ext)
  }

  /** The category folder name of a (lower-cased) extension. */
  function CategoryOf(ext: string): string {
    CategoryFoldersAreMapValues();
    CategoryIn(DragTable, ext)
  }

  /** The category loop finds the first matching entry, and `Other` exactly when no list holds `ext`. */
  lemma {:induction false} CategoryInFirstMatch(table: seq<Category>, ext: string)
    requires Named(table)
    ensures CategoryIn(table, ext) == match FirstMatch(table, ext)
                                      case None => Other
                                      case Some(i) => EnCategoryMap[table[i].key]
  {
    if table != [] && ext !in table[0].exts {
      CategoryInFirstMatch(table[1..], ext);
    }
  }

  /** The five extension lists of the drag manager do not overlap. */
  lemma DragTableDisjoint()
    ensures Disjoint(DragTable)
  {
    ListsApart01();
    ListsApart02();
    ListsApart03();
    ListsApart04();
    ListsApart12();
    ListsApart13();
    ListsApart14();
    ListsApart23();
    ListsApart24();
    ListsApart34();
    forall i, j, e | 0 <= i < j < |DragTable| && e in DragTable[i].exts
      ensures e !in DragTable[j].exts
    {
      assert (i, j) in {(0, 1), (0, 2), (0, 3), (0, 4), (1, 2), (1, 3), (1, 4), (2, 3), (2, 4), (3, 4)};
    }
  }

  lemma ListsApart01()
    ensures forall e :: e in DragTable[0].exts ==> e !in DragTable[1].exts
  {
    ListsApart(DragTable[0].exts, DragTable[1].exts);
  }

  lemma ListsApart02()
    ensures forall e :: e in DragTable[0].exts ==> e !in DragTable[2].exts
  {
    ListsApart(DragTable[0].exts, DragTable[2].exts);
  }

  lemma ListsApart03()
    ensures forall e :: e in DragTable[0].exts ==> e !in DragTable[3].exts
  {
    ListsApart(DragTable[0].exts, DragTable[3].exts);
  }

  lemma ListsApart04()
    ensures forall e :: e in DragTable[0].exts ==> e !in DragTable[4].exts
  {
    ListsApart(DragTable[0].exts, DragTable[4].exts);
  }

  lemma ListsApart12()
    ensures forall e :: e in DragTable[1].exts ==> e !in DragTable[2].exts
  {
    ListsApart(DragTable[1].exts, DragTable[2].exts);
  }

  lemma ListsApart13()
    ensures forall e :: e in DragTable[1].exts ==> e !in DragTable[3].exts
  {
    ListsApart(DragTable[1].exts, DragTable[3].exts);
  }

  lemma ListsApart14()
    ensures forall e :: e in DragTable[1].exts ==> e !in DragTable[4].exts
  {
    ListsApart(DragTable[1].exts, DragTable[4].exts);
  }

  lemma ListsApart23()
    ensures forall e :: e in DragTable[2].exts ==> e !in DragTable[3].exts
  {
    ListsApart(DragTable[2].exts, DragTable[3].exts);
  }

  lemma ListsApart24()
    ensures forall e :: e in DragTable[2].exts ==> e !in DragTable[4].exts
  {
    ListsApart(DragTable[2].exts, DragTable[4].exts);
  }

  lemma ListsApart34()
    ensures forall e :: e in DragTable[3].exts ==> e !in DragTable[4].exts
  {
    ListsApart(DragTable[3].exts, DragTable[4].exts);
  }

  /** Two lists share no element when every element of one differs from every element of the other. */
  lemma ListsApart(a: seq<string>, b: seq<string>)
    requires forall x, y :: x in a && y in b ==> x != y
    ensures forall e :: e in a ==> e !in b
  {
  }

  /** The `i`-th table entry is filed under the `i`-th folder name, and the folder names are distinct. */
  lemma FoldersByPosition()
    ensures |CategoryFolders| == |DragTable|
    ensures forall i :: 0 <= i < |DragTable| ==> EnCategoryMap[DragTable[i].key] == CategoryFolders[i]
    ensures forall i, j :: 0 <= i < j < |CategoryFolders| ==> CategoryFolders[i] != CategoryFolders[j]
    ensures Other !in CategoryFolders
  {
    CategoryFoldersAreMapValues();
  }

  /** First match in table order: each list gives its own folder, and `Other` means no list holds `ext`. */
  lemma CategoryByExtension(ext: string)
    ensures forall k :: 0 <= k < |DragTable| ==>
              (CategoryOf(ext) == CategoryFolders[k] <==> ext in DragTable[k].exts)
    ensures CategoryOf(ext) == Other <==> !Listed(DragTable, ext)
    ensures CategoryOf(ext) in CategoryFolders || CategoryOf(ext) == Other
  {
    FoldersByPosition();
    CategoryFoldersAreMapValues();
    CategoryInFirstMatch(DragTable, ext);
    ListedIffMatch(DragTable, ext);
    match FirstMatch(DragTable, ext)
    case None =>
    case Some(i) =>
      DragTableDisjoint();
      DisjointMatch(DragTable, ext, i);
      assert CategoryOf(ext) == CategoryFolders[i];
  }

  /** The `for cat, exts in FILE_CATEGORIES.items()` loop of `run()`, with its early `break`. */
  method LookupCategory(ext: string) returns (category: string)
    ensures category == CategoryOf(ext)
  {
    CategoryFoldersAreMapValues();
    category := Other;
    for i := 0 to |DragTable|
      invariant CategoryIn(DragTable, ext) == CategoryIn(DragTable[i..], ext)
    {
      if ext in DragTable[i].exts {
        category := EnCategoryMap[DragTable[i].key];
        break;
      }
      assert DragTable[i..][1..] == DragTable[i + 1..];
    }
  }

  // ------------------------------------------------------------ filesystem

  /** A snapshot of the filesystem as the engine sees it. */
  datatype Fs = Fs(dirs: set<Path>, files: set<Path>,
                   mkdirFaults: map<Path, string>, moveFaults: map<Path, string>)

  /** The filesystem after a call, and the message of the exception it raised, if any. */
  datatype FsStep = FsStep(fs: Fs, err: Option<string>)

  /** `os.path.exists(p)`. */
  predicate Exists(fs: Fs, p: Path) {
    p in fs.dirs || p in fs.files
  }

  /** `os.makedirs(p)`: a listed fault, or an existing path, raises; otherwise the directory appears. */
  function AfterMakeDirs(fs: Fs, p: Path): (r: FsStep)
    ensures r.fs.files == fs.files
    ensures r.err.None? <==> p !in fs.mkdirFaults && !Exists(fs, p)
    ensures r.err.None? ==> r.fs.dirs == fs.dirs + {p}
    ensures r.err.Some? ==> r.fs == fs
  {
    if p in fs.mkdirFaults then FsStep(fs, Some(fs.mkdirFaults[p]))
    else if Exists(fs, p) then FsStep(fs, Some("[Errno 17] File exists: '" + p + "'"))
    else FsStep(fs.(dirs := fs.dirs + {p}), None)
  }

  /** `shutil.move(src, dst)` of a regular file: a listed fault or a missing source raises. */
  function AfterMove(fs: Fs, src: Path, dst: Path): (r: FsStep)
    ensures r.fs.dirs == fs.dirs
    ensures r.err.None? <==> src !in fs.moveFaults && src in fs.files
    ensures r.err.None? ==> r.fs.files == fs.files - {src} + {dst}
    ensures r.err.Some? ==> r.fs == fs
  {
    if src in fs.moveFaults then FsStep(fs, Some(fs.moveFaults[src]))
    else if src !in fs.files then FsStep(fs, Some("[Errno 2] No such file or directory: '" + src + "'"))
    else FsStep(fs.(files := fs.files - {src} + {dst}), None)
  }

  /** The filesystem the thread works on; only `makedirs` and `move` change it. */
  class FileSystem {
    var dirs: set<Path>
    var files: set<Path>
    const mkdirFaults: map<Path, string>
    const moveFaults: map<Path, string>

    constructor (dirs: set<Path>, files: set<Path>,
                 mkdirFaults: map<Path, string>, moveFaults: map<Path, string>)
      ensures State() == Fs(dirs, files, mkdirFaults, moveFaults)
    {
      this.dirs, this.files := dirs, files;
      this.mkdirFaults, this.moveFaults := mkdirFaults, moveFaults;
    }

    function State(): Fs
      reads this
    {
      Fs(dirs, files, mkdirFaults, moveFaults)
    }

    predicate PathExists(p: Path)
      reads this
    {
      p in dirs || p in files
    }

    method MakeDirs(p: Path) returns (err: Option<string>)
      modifies this
      ensures FsStep(State(), err) == AfterMakeDirs(old(State()), p)
    {
      if p in mkdirFaults {
        err := Some(mkdirFaults[p]);
      } else if PathExists(p) {
        err := Some("[Errno 17] File exists: '" + p + "'");
      } else {
        dirs := dirs + {p};
        err := None;
      }
    }

    method Move(src: Path, dst: Path) returns (err: Option<string>)
      modifies this
      ensures FsStep(State(), err) == AfterMove(old(State()), src, dst)
    {
      if src in moveFaults {
        err := Some(moveFaults[src]);
      } else if src !in files {
        err := Some("[Errno 2] No such file or directory: '" + src + "'");
      } else {
        files := files - {src} + {dst};
        err := None;
      }
    }
  }

  // --------------------------------------------------------------- records

  /** What `datetime.now()` formats to: `strftime("%Y%m%d%H%M%S")` and `strftime("%f")`. */
  datatype Instant = Instant(seconds: string, fraction: string)

  /** The thread's constructor arguments. */
  datatype Request = Request(fileList: seq<(Path, Option<string>)>, targetDir: Path,
                             categorize: bool, autoRename: bool, pattern: string)

  /** One entry of `processed_files`. */
  datatype ProcessedFile = ProcessedFile(name: string, category: string, folder: string,
                                         path: Path, relativePath: Path)

  /** One entry of `error_files`: the source path and `str(e)`. */
  datatype ErrorEntry = ErrorEntry(src: Path, message: string)

  /** How one queued file ended. */
  datatype Outcome = Failed(error: ErrorEntry) | Moved(record: ProcessedFile)

  /** The thread's signals: `progress_updated`, `transfer_complete`, `error_occurred`. */
  datatype Signal =
    | Progress(percent: int, text: string)
    | Complete(errors: seq<ErrorEntry>, processed: seq<ProcessedFile>)
    | Fatal(title: string, message: string)

  // ---------------------------------------------------------------- naming

  /** The auto-rename name of an image: timestamp, '_', counter of at least two digits. */
  function ImageName(pattern: string, t: Instant, counter: nat): string {
    if pattern == SecondPattern then t.seconds + "_" + Pad2(counter)
    else if pattern == MilliPattern then t.seconds + Take(t.fraction, 3) + "_" + Pad2(counter)
    else t.seconds + "_" + Pad2(counter)
  }

  /** Whether a file of this category takes the auto-rename branch (and uses up a counter value). */
  predicate Renames(req: Request, category: string) {
    req.autoRename && category == "images"
  }

  /** The new base name, in the engine's priority order. */
  function NewName(req: Request, src: Path, custom: Option<string>, category: string,
                   t: Instant, counter: nat): string
  {
    if category == "videos" then NameStem(BaseName(src))
    else if req.autoRename && category == "images" then ImageName(req.pattern, t, counter)
    else if custom.Some? && custom.value != "" then custom.value
    else NameStem(BaseName(src))
  }

  /** The directory a file of this category is moved into. */
  function DestDir(req: Request, category: string): Path {
    if req.categorize && category != Other then Join(req.targetDir, category) else req.targetDir
  }

  /** Everything the engine decides about one file before touching the filesystem. */
  datatype Plan = Plan(ext: string, category: string, newName: string, destDir: Path, destPath: Path)

  function PlanFile(req: Request, clock: nat -> Instant, idx: nat, counter: nat): Plan
    requires idx < |req.fileList|
  {
    var (src, custom) := req.fileList[idx];
    var ext := Lower(Ext(src));
    var category := CategoryOf(ext);
    var newName := NewName(req, src, custom, category, clock(idx), counter);
    var destDir := DestDir(req, category);
    Plan(ext, category, newName, destDir, Join(destDir, newName + ext))
  }

  /** The record appended to `processed_files` for a file moved as planned. */
  function Record(p: Plan): ProcessedFile {
    ProcessedFile(p.newName + p.ext, p.category, BaseName(p.destDir), p.destPath,
                  Join(BaseName(p.destDir), p.newName + p.ext))
  }

  /** `int((idx + 1) / total * 100)`, computed on integers. */
  function Percent(done: nat, total: nat): int
    requires 0 < done <= total
  {
    done * 100 / total
  }

  function ProgressLabel(p: Plan): string {
    MovingPrefix + p.newName + p.ext
  }

  // ----------------------------------------------------- setup and the loop

  /** Creating the category directories in order, stopping at the first failure. */
  function SetupCategories(fs: Fs, target: Path, folders: seq<string>): (r: FsStep)
    ensures r.fs.files == fs.files
    decreases |folders|
  {
    if folders == [] then FsStep(fs, None)
    else
      var d := Join(target, folders[0]);
      var s := if Exists(fs, d) then FsStep(fs, None) else AfterMakeDirs(fs, d);
      if s.err.Some? then s else SetupCategories(s.fs, target, folders[1..])
  }

  /** The filesystem after setup, and the `Fatal` signal when setup failed. */
  datatype SetupResult = SetupResult(fs: Fs, fatal: Option<Signal>)

  function Setup(req: Request, fs: Fs): (r: SetupResult)
    ensures r.fs.files == fs.files
    ensures r.fatal.Some? ==> r.fatal.value.Fatal?
  {
    var s := if Exists(fs, req.targetDir) then FsStep(fs, None) else AfterMakeDirs(fs, req.targetDir);
    if s.err.Some? then SetupResult(s.fs, Some(Fatal(DirFailTitle, TargetDirFailPrefix + s.err.value)))
    else if !req.categorize then SetupResult(s.fs, None)
    else
      var c := SetupCategories(s.fs, req.targetDir, CategoryFolders);
      if c.err.Some? then SetupResult(c.fs, Some(Fatal(DirFailTitle, CategoryDirFailPrefix + c.err.value)))
      else SetupResult(c.fs, None)
  }

  /** Creating the destination directory when it is missing, then moving the file into it. */
  function PlaceFile(fs: Fs, src: Path, destDir: Path, destPath: Path): FsStep {
    var mk := if Exists(fs, destDir) then FsStep(fs, None) else AfterMakeDirs(fs, destDir);
    if mk.err.Some? then mk else AfterMove(mk.fs, src, destPath)
  }

  /** The category of the file at `idx`; it depends on the source path alone. */
  function CategoryAt(req: Request, idx: nat): string
    requires idx < |req.fileList|
  {
    CategoryOf(Lower(Ext(req.fileList[idx].0)))
  }

  /** How many indices below `n` satisfy `p`. */
  function CountBelow(p: nat -> bool, n: nat): (r: nat)
    ensures r <= n
  {
    if n == 0 then 0 else CountBelow(p, n - 1) + (if p(n - 1) then 1 else 0)
  }

  /** Whether the file at `i` takes the auto-rename branch. */
  function RenamedAt(req: Request): nat -> bool {
    (i: nat) => i < |req.fileList| && Renames(req, CategoryAt(req, i))
  }

  /** The value of `image_counter` when the file at `i` is reached: one more than the images renamed before it. */
  function CounterAt(req: Request, i: nat): nat {
    1 + CountBelow(RenamedAt(req), i)
  }

  /** The plan of the file at `i`, made with the counter value it sees. */
  function PlanAt(req: Request, clock: nat -> Instant, i: nat): Plan
    requires i < |req.fileList|
  {
    PlanFile(req, clock, i, CounterAt(req, i))
  }

  /** The `progress_updated` signal of the file at `i`. */
  function SignalAt(req: Request, clock: nat -> Instant, i: nat): Signal
    requires i < |req.fileList|
  {
    Progress(Percent(i + 1, |req.fileList|), ProgressLabel(PlanAt(req, clock, i)))
  }

  /** Placing the file at `i` on the filesystem the files before it left behind. */
  function PlaceAt(req: Request, clock: nat -> Instant, fs: Fs, i: nat): FsStep
    requires i < |req.fileList|
    decreases i, 1
  {
    var p := PlanAt(req, clock, i);
    PlaceFile(FsAfter(req, clock, fs, i), req.fileList[i].0, p.destDir, p.destPath)
  }

  /** The filesystem after the first `n` files of the loop. */
  function FsAfter(req: Request, clock: nat -> Instant, fs: Fs, n: nat): Fs
    requires n <= |req.fileList|
    decreases n, 0
  {
    if n == 0 then fs else PlaceAt(req, clock, fs, n - 1).fs
  }

  /** How the file at `i` ends: the exception its `makedirs` or move raised, or its record. */
  function OutcomeAt(req: Request, clock: nat -> Instant, fs: Fs, i: nat): Outcome
    requires i < |req.fileList|
  {
    var r := PlaceAt(req, clock, fs, i);
    if r.err.Some? then Failed(ErrorEntry(req.fileList[i].0, r.err.value))
    else Moved(Record(PlanAt(req, clock, i)))
  }

  /** `[f(0), ..., f(n - 1)]`, built front to back as the loop builds its lists. */
  function Tabulate<T>(n: nat, f: nat --> T): (r: seq<T>)
    requires forall i :: 0 <= i < n ==> f.requires(i)
    ensures |r| == n
    ensures forall i :: 0 <= i < n ==> r[i] == f(i)
  {
    if n == 0 then [] else Tabulate(n - 1, f) + [f(n - 1)]
  }

  /** The progress signals of the first `n` files. */
  function Signals(req: Request, clock: nat -> Instant, n: nat): seq<Signal>
    requires n <= |req.fileList|
  {
    Tabulate(n, (i: nat) requires i < |req.fileList| => SignalAt(req, clock, i))
  }

  /** The outcomes of the first `n` files. */
  function Outcomes(req: Request, clock: nat -> Instant, fs: Fs, n: nat): seq<Outcome>
    requires n <= |req.fileList|
  {
    Tabulate(n, (i: nat) requires i < |req.fileList| => OutcomeAt(req, clock, fs, i))
  }

  /** `error_files`: the failed outcomes, in order. */
  function ErrorsOf(os: seq<Outcome>): seq<ErrorEntry> {
    if os == [] then []
    else (if os[0].Failed? then [os[0].error] else []) + ErrorsOf(os[1..])
  }

  /** `processed_files`: the moved outcomes, in order. */
  function ProcessedOf(os: seq<Outcome>): seq<ProcessedFile> {
    if os == [] then []
    else (if os[0].Moved? then [os[0].record] else []) + ProcessedOf(os[1..])
  }

  /** Appending one outcome appends its entry to exactly one of the two lists. */
  lemma {:induction false} OutcomeAppended(os: seq<Outcome>, o: Outcome)
    ensures ErrorsOf(os + [o]) == ErrorsOf(os) + (if o.Failed? then [o.error] else [])
    ensures ProcessedOf(os + [o]) == ProcessedOf(os) + (if o.Moved? then [o.record] else [])
  {
    if os == [] {
      assert ([] + [o])[1..] == [];
    } else {
      assert (os + [o])[1..] == os[1..] + [o];
      OutcomeAppended(os[1..], o);
    }
  }

  datatype RunResult = RunResult(trace: seq<Signal>, fs: Fs)

  /** The whole run: setup, then every file, then `transfer_complete`. */
  function Execute(req: Request, clock: nat -> Instant, fs: Fs): RunResult {
    var s := Setup(req, fs);
    var n := |req.fileList|;
    if s.fatal.Some? then RunResult([s.fatal.value], s.fs)
    else
      var os := Outcomes(req, clock, s.fs, n);
      RunResult(Signals(req, clock, n) + [Complete(ErrorsOf(os), ProcessedOf(os))], FsAfter(req, clock, s.fs, n))
  }

  /** A failed setup is the whole run: one `Fatal` signal, and the files are where they were. */
  lemma ExecuteWhenSetupFails(req: Request, clock: nat -> Instant, fs: Fs)
    requires Setup(req, fs).fatal.Some?
    ensures Execute(req, clock, fs) == RunResult([Setup(req, fs).fatal.value], Setup(req, fs).fs)
  {
  }

  // ------------------------------------------------------------ properties

  lemma {:induction false} CountBelowMonotone(p: nat -> bool, a: nat, b: nat)
    requires a <= b
    ensures CountBelow(p, a) <= CountBelow(p, b)
    decreases b - a
  {
    if a < b {
      CountBelowMonotone(p, a, b - 1);
    }
  }

  lemma CountBelowStrict(p: nat -> bool, a: nat, b: nat)
    requires a < b && p(a)
    ensures CountBelow(p, a) < CountBelow(p, b)
  {
    CountBelowMonotone(p, a + 1, b);
  }

  /** The counter moves on by one exactly after a renamed image. */
  lemma CounterStep(req: Request, i: nat)
    requires i < |req.fileList|
    ensures CounterAt(req, i + 1) == CounterAt(req, i) + (if Renames(req, CategoryAt(req, i)) then 1 else 0)
  {
    assert RenamedAt(req)(i) == Renames(req, CategoryAt(req, i));
  }

  /** A later renamed image always sees a strictly larger counter than an earlier one. */
  lemma CounterIncreases(req: Request, i: nat, j: nat)
    requires i < j <= |req.fileList| && Renames(req, CategoryAt(req, i))
    ensures CounterAt(req, i) < CounterAt(req, j)
  {
    assert RenamedAt(req)(i);
    CountBelowStrict(RenamedAt(req), i, j);
  }

  /**
   * Placing a file succeeds exactly when its directory exists or can be made, and the move
   * neither faults nor misses its source; then the file leaves `src` for `dst`.
   */
  lemma PlaceFileSucceeds(fs: Fs, src: Path, destDir: Path, destPath: Path)
    ensures PlaceFile(fs, src, destDir, destPath).err.None?
            <==> (Exists(fs, destDir) || destDir !in fs.mkdirFaults)
                 && src !in fs.moveFaults && src in fs.files
    ensures PlaceFile(fs, src, destDir, destPath).err.None? ==>
              PlaceFile(fs, src, destDir, destPath).fs.files == fs.files - {src} + {destPath}
    ensures PlaceFile(fs, src, destDir, destPath).err.Some? ==>
              PlaceFile(fs, src, destDir, destPath).fs.files == fs.files
  {
  }

  /** What one pass of the loop body contributes, given its plan and the result of placing the file. */
  lemma FileStepAt(req: Request, clock: nat -> Instant, fs: Fs, idx: nat, plan: Plan, r: FsStep)
    requires idx < |req.fileList| && plan == PlanAt(req, clock, idx)
    requires r == PlaceFile(FsAfter(req, clock, fs, idx), req.fileList[idx].0, plan.destDir, plan.destPath)
    ensures r.fs == FsAfter(req, clock, fs, idx + 1)
    ensures OutcomeAt(req, clock, fs, idx)
         == if r.err.Some? then Failed(ErrorEntry(req.fileList[idx].0, r.err.value)) else Moved(Record(plan))
    ensures SignalAt(req, clock, idx) == Progress(Percent(idx + 1, |req.fileList|), ProgressLabel(plan))
  {
  }

  /** A file that fails is reported with its own source path; one that moves gets its plan's record. */
  lemma OutcomeOfFile(req: Request, clock: nat -> Instant, fs: Fs, i: nat)
    requires i < |req.fileList|
    ensures OutcomeAt(req, clock, fs, i).Failed? ==> OutcomeAt(req, clock, fs, i).error.src == req.fileList[i].0
    ensures OutcomeAt(req, clock, fs, i).Moved? <==> PlaceAt(req, clock, fs, i).err.None?
    ensures OutcomeAt(req, clock, fs, i).Moved? ==> OutcomeAt(req, clock, fs, i).record == Record(PlanAt(req, clock, i))
  {
  }

  /** Each outcome lands in exactly one of the two lists: their lengths add up. */
  lemma {:induction false} PartitionCount(os: seq<Outcome>)
    ensures |ErrorsOf(os)| + |ProcessedOf(os)| == |os|
  {
    if os != [] {
      PartitionCount(os[1..]);
    }
  }

  /** An entry is in `error_files` (`processed_files`) exactly when some outcome failed (moved) with it. */
  lemma {:induction false} PartitionMembers(os: seq<Outcome>)
    ensures forall e :: e in ErrorsOf(os) <==> exists i :: 0 <= i < |os| && os[i] == Failed(e)
    ensures forall r :: r in ProcessedOf(os) <==> exists i :: 0 <= i < |os| && os[i] == Moved(r)
  {
    if os != [] {
      PartitionMembers(os[1..]);
      forall e | (exists i :: 0 <= i < |os| && os[i] == Failed(e))
        ensures e in ErrorsOf(os)
      {
        var i :| 0 <= i < |os| && os[i] == Failed(e);
        if i > 0 {
          assert os[1..][i - 1] == Failed(e);
        }
      }
      forall r | (exists i :: 0 <= i < |os| && os[i] == Moved(r))
        ensures r in ProcessedOf(os)
      {
        var i :| 0 <= i < |os| && os[i] == Moved(r);
        if i > 0 {
          assert os[1..][i - 1] == Moved(r);
        }
      }
      forall e | e in ErrorsOf(os[1..])
        ensures exists i :: 0 <= i < |os| && os[i] == Failed(e)
      {
        var i :| 0 <= i < |os[1..]| && os[1..][i] == Failed(e);
        assert os[i + 1] == Failed(e);
      }
      forall r | r in ProcessedOf(os[1..])
        ensures exists i :: 0 <= i < |os| && os[i] == Moved(r)
      {
        var i :| 0 <= i < |os[1..]| && os[1..][i] == Moved(r);
        assert os[i + 1] == Moved(r);
      }
    }
  }

  /** `int((idx + 1) / total * 100)` stays within 0..100 and is 100 for the last file. */
  lemma PercentBounds(done: nat, total: nat)
    requires 0 < done <= total
    ensures 0 <= Percent(done, total) <= 100
    ensures done == total ==> Percent(done, total) == 100
  {
    var q, r := done * 100 / total, done * 100 % total;
    assert q * total + r == done * 100 && 0 <= r < total;
    if q > 100 {
      MulAtLeast(101, q, total);
      assert false;
    }
    if done == total && q < 100 {
      MulAtLeast(q, 99, total);
      assert false;
    }
  }

  lemma {:induction false} MulAtLeast(a: nat, b: nat, c: nat)
    requires a <= b
    ensures a * c <= b * c
  {
    if c > 0 {
      MulAtLeast(a, b, c - 1);
      assert a * c == a * (c - 1) + a && b * c == b * (c - 1) + b;
    }
  }

  /** A video keeps its stem, whatever the custom name and the rename setting. */
  lemma VideoKeepsStem(req: Request, clock: nat -> Instant, i: nat, counter: nat)
    requires i < |req.fileList| && CategoryAt(req, i) == "videos"
    ensures PlanFile(req, clock, i, counter).newName == NameStem(BaseName(req.fileList[i].0))
  {
  }

  /** A file that is neither a video nor a renamed image takes its custom name if non-empty, else its stem. */
  lemma OtherFilesKeepCustomName(req: Request, clock: nat -> Instant, i: nat, counter: nat)
    requires i < |req.fileList|
    requires CategoryAt(req, i) != "videos" && !Renames(req, CategoryAt(req, i))
    ensures var (src, custom) := req.fileList[i];
            PlanFile(req, clock, i, counter).newName
            == if custom.Some? && custom.value != "" then custom.value else NameStem(BaseName(src))
  {
  }

  /** An unrecognised pattern names images like the second-level pattern. */
  lemma PatternFallback(pattern: string, t: Instant, counter: nat)
    requires pattern != MilliPattern
    ensures ImageName(pattern, t, counter) == ImageName(SecondPattern, t, counter)
  {
  }

  /** Whatever the pattern, an image name ends in '_' and the counter padded to two digits. */
  lemma ImageNameSuffix(pattern: string, t: Instant, counter: nat)
    ensures AfterLast(ImageName(pattern, t, counter), '_') == Pad2(counter)
  {
    var stamp := if pattern == MilliPattern then t.seconds + Take(t.fraction, 3) else t.seconds;
    assert ImageName(pattern, t, counter) == stamp + ['_'] + Pad2(counter);
    assert forall k :: 0 <= k < |Pad2(counter)| ==> IsDigit(Pad2(counter)[k]);
    AfterLastAppended(stamp, '_', Pad2(counter));
  }

  /** The renamed images of one run get pairwise different names. */
  lemma RenamedImagesDistinct(req: Request, clock: nat -> Instant, i: nat, j: nat)
    requires i < j < |req.fileList|
    requires Renames(req, CategoryAt(req, i)) && Renames(req, CategoryAt(req, j))
    ensures PlanAt(req, clock, i).newName != PlanAt(req, clock, j).newName
  {
    var ci, cj := CounterAt(req, i), CounterAt(req, j);
    CounterIncreases(req, i, j);
    ImageNameSuffix(req.pattern, clock(i), ci);
    ImageNameSuffix(req.pattern, clock(j), cj);
    Pad2Injective(ci, cj);
  }

  /**
   * The destination is a category sub-directory exactly when categorising is on and the
   * category is known; then the record's folder is the category's name.  The file name is
   * the new name followed by the lower-cased extension.
   */
  lemma Destination(req: Request, clock: nat -> Instant, i: nat, counter: nat)
    requires i < |req.fileList|
    ensures var p := PlanFile(req, clock, i, counter);
            && (p.destDir != req.targetDir <==> req.categorize && p.category != Other)
            && (req.categorize && p.category != Other ==>
                  p.destDir == Join(req.targetDir, p.category) && Record(p).folder == p.category)
            && p.ext == Lower(Ext(req.fileList[i].0))
            && p.destPath == Join(p.destDir, p.newName + p.ext)
            && Record(p).name == p.newName + p.ext
            && Record(p).relativePath == Join(Record(p).folder, Record(p).name)
  {
    var p := PlanFile(req, clock, i, counter);
    CategoryByExtension(p.ext);
    if req.categorize && p.category != Other {
      var k :| 0 <= k < |CategoryFolders| && CategoryFolders[k] == p.category;
      assert k == 0 || k == 1 || k == 2 || k == 3 || k == 4;
      assert p.category[0] != '/' && '/' !in p.category;
      JoinExtends(req.targetDir, p.category);
      BaseNameOfJoin(req.targetDir, p.category);
    }
  }

  /** `makedirs` is about to fail on `d`: it is missing and its creation raises. */
  predicate Blocked(fs: Fs, d: Path) {
    !Exists(fs, d) && d in fs.mkdirFaults
  }

  /** Creating directories only adds directories. */
  lemma {:induction false} SetupCategoriesGrows(fs: Fs, target: Path, folders: seq<string>)
    ensures var s := SetupCategories(fs, target, folders);
            fs.dirs <= s.fs.dirs && s.fs.mkdirFaults == fs.mkdirFaults
    ensures var s := SetupCategories(fs, target, folders);
            s.err.None? ==> forall k :: 0 <= k < |folders| ==> Exists(s.fs, Join(target, folders[k]))
    decreases |folders|
  {
    if folders != [] {
      var d := Join(target, folders[0]);
      var s := if Exists(fs, d) then FsStep(fs, None) else AfterMakeDirs(fs, d);
      if s.err.None? {
        SetupCategoriesGrows(s.fs, target, folders[1..]);
        var r := SetupCategories(s.fs, target, folders[1..]);
        assert forall k :: 1 <= k < |folders| ==> folders[k] == folders[1..][k - 1];
      }
    }
  }

  /** With distinct directories, the category step fails exactly when one of them is blocked. */
  lemma {:induction false} SetupCategoriesFails(fs: Fs, target: Path, folders: seq<string>)
    requires forall k, l :: 0 <= k < l < |folders| ==> Join(target, folders[k]) != Join(target, folders[l])
    ensures SetupCategories(fs, target, folders).err.Some?
            <==> exists k :: 0 <= k < |folders| && Blocked(fs, Join(target, folders[k]))
    decreases |folders|
  {
    if folders != [] {
      var d := Join(target, folders[0]);
      var s := if Exists(fs, d) then FsStep(fs, None) else AfterMakeDirs(fs, d);
      if s.err.None? {
        SetupCategoriesFails(s.fs, target, folders[1..]);
        assert forall k :: 1 <= k < |folders| ==> folders[k] == folders[1..][k - 1];
        assert forall k :: 1 <= k < |folders| ==>
                 (Blocked(s.fs, Join(target, folders[k])) <==> Blocked(fs, Join(target, folders[k])));
        assert !Blocked(fs, d);
      } else {
        assert Blocked(fs, Join(target, folders[0]));
      }
    }
  }

  /** The five category directories under one target are five different paths. */
  lemma CategoryDirsDistinct(target: Path)
    ensures forall k, l :: 0 <= k < l < |CategoryFolders| ==>
              Join(target, CategoryFolders[k]) != Join(target, CategoryFolders[l])
  {
    FoldersByPosition();
    forall k, l | 0 <= k < l < |CategoryFolders|
      ensures Join(target, CategoryFolders[k]) != Join(target, CategoryFolders[l])
    {
      assert CategoryFolders[k][0] != '/' && CategoryFolders[l][0] != '/';
      JoinInjective(target, CategoryFolders[k], CategoryFolders[l]);
    }
  }

  /**
   * Setup fails exactly when the target directory is blocked, or categorising is on and one
   * of the five category directories is blocked; when it succeeds, all of them exist.
   */
  lemma SetupOutcome(req: Request, fs: Fs)
    ensures Setup(req, fs).fatal.Some?
            <==> Blocked(fs, req.targetDir)
                 || (req.categorize && exists k :: 0 <= k < |CategoryFolders| &&
                                                  Blocked(fs, Join(req.targetDir, CategoryFolders[k])))
    ensures Setup(req, fs).fatal.None? ==>
              Exists(Setup(req, fs).fs, req.targetDir)
              && (req.categorize ==> forall k :: 0 <= k < |CategoryFolders| ==>
                                       Exists(Setup(req, fs).fs, Join(req.targetDir, CategoryFolders[k])))
  {
    var t := req.targetDir;
    var s := if Exists(fs, t) then FsStep(fs, None) else AfterMakeDirs(fs, t);
    if s.err.None? && req.categorize {
      CategoryDirsDistinct(t);
      SetupCategoriesFails(s.fs, t, CategoryFolders);
      SetupCategoriesGrows(s.fs, t, CategoryFolders);
      forall k | 0 <= k < |CategoryFolders|
        ensures Blocked(s.fs, Join(t, CategoryFolders[k])) <==> Blocked(fs, Join(t, CategoryFolders[k]))
      {
        assert CategoryFolders[k] != "" && CategoryFolders[k][0] != '/';
        JoinExtends(t, CategoryFolders[k]);
      }
    }
  }

  /**
   * The run's trace: a failed setup gives one `Fatal` signal and no file moves; otherwise one
   * `Progress` per input file, in order, then a single `Complete` whose two lists hold one entry per file.
   */
  lemma RunShape(req: Request, clock: nat -> Instant, fs: Fs)
    ensures var r := Execute(req, clock, fs);
            Setup(req, fs).fatal.Some? ==>
              |r.trace| == 1 && r.trace[0].Fatal? && r.fs.files == fs.files
    ensures var r := Execute(req, clock, fs);
            Setup(req, fs).fatal.None? ==>
              && |r.trace| == |req.fileList| + 1
              && (forall i :: 0 <= i < |req.fileList| ==> r.trace[i] == SignalAt(req, clock, i))
              && r.trace[|req.fileList|].Complete?
              && |r.trace[|req.fileList|].errors| + |r.trace[|req.fileList|].processed| == |req.fileList|
    ensures Execute(req, clock, fs).trace[|Execute(req, clock, fs).trace| - 1].Complete?
            <==> Setup(req, fs).fatal.None?
  {
    var s := Setup(req, fs);
    if s.fatal.None? {
      var n := |req.fileList|;
      PartitionCount(Outcomes(req, clock, s.fs, n));
    }
  }

  // ---------------------------------------------------------------- thread

  class FileTransferThread {
    const fileList: seq<(Path, Option<string>)>
    const targetDir: Path
    const categorizeFiles: bool
    const autoRenameImages: bool
    const renamePattern: string
    const totalFiles: nat

    constructor (fileList: seq<(Path, Option<string>)>, targetDir: Path,
                 categorizeFiles: bool, autoRenameImages: bool, renamePattern: string)
      ensures Req() == Request(fileList, targetDir, categorizeFiles, autoRenameImages, renamePattern)
      ensures totalFiles == |fileList|
    {
      this.fileList, this.targetDir := fileList, targetDir;
      this.categorizeFiles, this.autoRenameImages := categorizeFiles, autoRenameImages;
      this.renamePattern := renamePattern;
      this.totalFiles := |fileList|;
    }

    function Req(): Request {
      Request(fileList, targetDir, categorizeFiles, autoRenameImages, renamePattern)
    }

    /** The two directory steps at the start of `run()`; a failure yields the `Fatal` signal. */
    method PrepareDirectories(fs: FileSystem) returns (fatal: Option<Signal>)
      modifies fs
      ensures SetupResult(fs.State(), fatal) == Setup(Req(), old(fs.State()))
    {
      ghost var fs0 := fs.State();
      fatal := None;
      if !fs.PathExists(targetDir) {
        var err := fs.MakeDirs(targetDir);
        if err.Some? {
          fatal := Some(Fatal(DirFailTitle, TargetDirFailPrefix + err.value));
          return;
        }
      }
      ghost var fsTarget := fs.State();
      if categorizeFiles {
        for i := 0 to |CategoryFolders|
          invariant fs.State().mkdirFaults == fs0.mkdirFaults && fs.State().moveFaults == fs0.moveFaults
          invariant SetupCategories(fsTarget, targetDir, CategoryFolders)
                 == SetupCategories(fs.State(), targetDir, CategoryFolders[i..])
        {
          assert CategoryFolders[i..][1..] == CategoryFolders[i + 1..];
          var categoryDir := Join(targetDir, CategoryFolders[i]);
          if !fs.PathExists(categoryDir) {
            var err := fs.MakeDirs(categoryDir);
            if err.Some? {
              fatal := Some(Fatal(DirFailTitle, CategoryDirFailPrefix + err.value));
              return;
            }
          }
        }
      }
    }

    /** The first half of the loop body: extension, category, new name and destination. */
    method PlanTransfer(clock: nat -> Instant, idx: nat, imageCounter: nat)
      returns (plan: Plan, counter: nat)
      requires idx < |fileList| && imageCounter == CounterAt(Req(), idx)
      ensures plan == PlanAt(Req(), clock, idx)
      ensures counter == CounterAt(Req(), idx + 1)
    {
      CounterStep(Req(), idx);
      var (srcPath, customName) := fileList[idx];
      var ext := Lower(Ext(srcPath));

      var fileCategory := LookupCategory(ext);

      counter := imageCounter;
      var newName;
      if fileCategory == "videos" {
        newName := NameStem(BaseName(srcPath));
      } else if autoRenameImages && fileCategory == "images" {
        newName := ImageName(renamePattern, clock(idx), counter);
        counter := counter + 1;
      } else {
        newName := if customName.Some? && customName.value != "" then customName.value
                   else NameStem(BaseName(srcPath));
      }

      var destDir := if categorizeFiles && fileCategory != Other then Join(targetDir, fileCategory)
                     else targetDir;
      plan := Plan(ext, fileCategory, newName, destDir, Join(destDir, newName + ext));
    }

    /** The `makedirs` (when the destination is missing) and the `shutil.move` of one file. */
    static method Place(fs: FileSystem, src: Path, destDir: Path, destPath: Path)
      returns (failure: Option<string>)
      modifies fs
      ensures FsStep(fs.State(), failure) == PlaceFile(old(fs.State()), src, destDir, destPath)
    {
      failure := None;
      if !fs.PathExists(destDir) {
        failure := fs.MakeDirs(destDir);
      }
      if failure.None? {
        failure := fs.Move(src, destPath);
      }
    }

    /** One pass of the `for idx, (src_path, custom_name) in enumerate(...)` loop body. */
    method TransferFile(fs: FileSystem, clock: nat -> Instant, idx: nat, imageCounter: nat, ghost fs1: Fs)
      returns (counter: nat, signal: Signal, outcome: Outcome)
      requires idx < |fileList| && totalFiles == |fileList|
      requires fs.State() == FsAfter(Req(), clock, fs1, idx) && imageCounter == CounterAt(Req(), idx)
      modifies fs
      ensures fs.State() == FsAfter(Req(), clock, fs1, idx + 1)
      ensures counter == CounterAt(Req(), idx + 1)
      ensures signal == SignalAt(Req(), clock, idx)
      ensures outcome == OutcomeAt(Req(), clock, fs1, idx)
    {
      var srcPath := fileList[idx].0;
      var plan;
      plan, counter := PlanTransfer(clock, idx, imageCounter);
      signal := Progress(Percent(idx + 1, totalFiles), ProgressLabel(plan));

      var failure := Place(fs, srcPath, plan.destDir, plan.destPath);
      if failure.Some? {
        outcome := Failed(ErrorEntry(srcPath, failure.value));
      } else {
        outcome := Moved(Record(plan));
      }
      FileStepAt(Req(), clock, fs1, idx, plan, FsStep(fs.State(), failure));
    }

    /** `run()`: the signals it emits, and what it does to the filesystem. */
    method Run(fs: FileSystem, clock: nat -> Instant) returns (trace: seq<Signal>)
      requires totalFiles == |fileList|
      modifies fs
      ensures RunResult(trace, fs.State()) == Execute(Req(), clock, old(fs.State()))
    {
      var fatal := PrepareDirectories(fs);
      if fatal.Some? {
        trace := [fatal.value];
        return;
      }
      trace := MoveFiles(fs, clock);
    }

    /** The per-file loop of `run()` and the final `transfer_complete`. */
    method MoveFiles(fs: FileSystem, clock: nat -> Instant) returns (trace: seq<Signal>)
      requires totalFiles == |fileList|
      modifies fs
      ensures var n, os := |fileList|, Outcomes(Req(), clock, old(fs.State()), |fileList|);
              && trace == Signals(Req(), clock, n) + [Complete(ErrorsOf(os), ProcessedOf(os))]
              && fs.State() == FsAfter(Req(), clock, old(fs.State()), n)
    {
      var errorFiles: seq<ErrorEntry> := [];
      var processedFiles: seq<ProcessedFile> := [];
      ghost var req := Req();
      ghost var fs1 := fs.State();
      var imageCounter: nat := 1;
      trace := [];
      for idx := 0 to |fileList|
        invariant fs.State() == FsAfter(req, clock, fs1, idx) && imageCounter == CounterAt(req, idx)
        invariant trace == Signals(req, clock, idx)
        invariant errorFiles == ErrorsOf(Outcomes(req, clock, fs1, idx))
        invariant processedFiles == ProcessedOf(Outcomes(req, clock, fs1, idx))
      {
        var signal, outcome;
        imageCounter, signal, outcome := TransferFile(fs, clock, idx, imageCounter, fs1);
        OutcomeAppended(Outcomes(req, clock, fs1, idx), outcome);
        trace := trace + [signal];
        if outcome.Failed? {
          errorFiles := errorFiles + [outcome.error];
        } else {
          processedFiles := processedFiles + [outcome.record];
        }
      }
      trace := trace + [Complete(errorFiles, processedFiles)];
    }
  }
}
