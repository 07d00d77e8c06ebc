/**
 * The bookkeeping of the drag manager's main window (`FileManagerApp` of
 * FileDragManager/main.py): the list of files waiting to be moved and the list widget
 * that shows them, the execute flag, the transfer history and its newest-first view,
 * and the settings dictionary.  History and settings are written to ONE file
 * (`history_file` and `settings_file` are the same path), modelled as the field `stored`:
 * whichever was written last is what the next load of either one reads.
 */
module DragManager {
  import opened Wrappers
  import opened Text
  import opened Categories
  import Transfer

  // ------------------------------------------------------------- JSON values

  /** The JSON values the settings hold. */
  datatype Value = Str(s: string) | Bool(b: bool)

  type Settings = map<string, Value>

  /** One history entry: `{"time": now, "files": processed_files}`. */
  datatype HistoryEntry = HistoryEntry(time: string, files: seq<Transfer.ProcessedFile>)

  /** A parsed JSON file: a history list, or a settings object. */
  datatype Doc = ListDoc(entries: seq<HistoryEntry>) | DictDoc(settings: Settings)

  /** The file on disk: `None` when it is missing or does not parse. */
  type Store = Option<Doc>

  const HistoryVisible: string := "history_visible"

  /** Python truthiness of a setting. */
  predicate Truthy(v: Value) {
    match v
    case Str(s) => s != ""
    case Bool(b) => b
  }

  /** `dict.get(key, default)`. */
  function Get(m: Settings, key: string, default: Value): Value {
    if key in m then m[key] else default
  }

  // ---------------------------------------------------------------- settings

  /**
   * `load_settings`: a loaded object keeps all its keys and gains `history_visible` = True
   * when it lacks it; a missing or unreadable file, or a list (the assignment of a key to
   * a list raises, and the exception is swallowed), gives `{history_visible: True}`.
   */
  function LoadSettings(stored: Store): (r: Settings)
    ensures HistoryVisible in r
    ensures stored.Some? && stored.value.DictDoc? ==>
              var s := stored.value.settings;
              r.Keys == s.Keys + {HistoryVisible}
              && (forall k :: k in s ==> r[k] == s[k])
              && (HistoryVisible !in s ==> r[HistoryVisible] == Bool(true))
    ensures !(stored.Some? && stored.value.DictDoc?) ==> r == map[HistoryVisible := Bool(true)]
  {
    match stored
    case Some(DictDoc(s)) =>
      if HistoryVisible in s then s else s[HistoryVisible := Bool(true)]
    case _ => map[HistoryVisible := Bool(true)]
  }

  /** The object `save_settings` writes. */
  function SavedSettings(targetDir: Value, autoRename: Value, pattern: Value, settings: Settings, categorize: Value): Settings {
    map["target_dir" := targetDir,
        "auto_rename_images" := autoRename,
        "rename_pattern" := pattern,
        HistoryVisible := Get(settings, HistoryVisible, Bool(true)),
        "categorize_files" := categorize]
  }

  /** `save_settings` writes exactly five keys, and reading the file back gives the same object. */
  lemma SavedSettingsReload(targetDir: Value, autoRename: Value, pattern: Value, settings: Settings, categorize: Value)
    ensures var saved := SavedSettings(targetDir, autoRename, pattern, settings, categorize);
            saved.Keys == {"target_dir", "auto_rename_images", "rename_pattern", HistoryVisible, "categorize_files"}
            && LoadSettings(Some(DictDoc(saved))) == saved
            && Get(saved, "target_dir", Str("")) == targetDir
            && Get(saved, "auto_rename_images", Bool(true)) == autoRename
            && Get(saved, "rename_pattern", Str("")) == pattern
            && Get(saved, "categorize_files", Bool(false)) == categorize
  {
  }

  /** The panel state `toggle_history_panel` saves is the state the next start shows. */
  lemma VisibilityPersists(targetDir: Value, autoRename: Value, pattern: Value, settings: Settings, categorize: Value, visible: bool)
    ensures var stored := Some(DictDoc(SavedSettings(targetDir, autoRename, pattern, settings[HistoryVisible := Bool(visible)], categorize)));
            Truthy(Get(LoadSettings(stored), HistoryVisible, Bool(true))) == visible
  {
    SavedSettingsReload(targetDir, autoRename, pattern, settings[HistoryVisible := Bool(visible)], categorize);
  }

  // ----------------------------------------------------------------- history

  /** `load_history`: whatever the file holds, or an empty list. */
  function LoadHistory(stored: Store): Doc {
    match stored
    case Some(d) => d
    case None => ListDoc([])
  }

  /** The entries `save_history` appends to: a history that is not a list is reset to `[]`. */
  function EntriesOf(h: Doc): seq<HistoryEntry> {
    if h.ListDoc? then h.entries else []
  }

  function Min(a: nat, b: nat): nat {
    if a <= b then a else b
  }

  function Reverse<T>(s: seq<T>): (r: seq<T>)
    ensures |r| == |s|
    ensures forall i :: 0 <= i < |s| ==> r[i] == s[|s| - 1 - i]
  {
    if s == [] then [] else [s[|s| - 1]] + Reverse(s[..|s| - 1])
  }

  /**
   * The slice-and-reverse of `load_history_to_list`: the last 50 entries of a non-empty
   * list, newest first; nothing at all for a settings object.
   */
  function RecentHistory(h: Doc): (r: seq<HistoryEntry>)
    ensures |r| == (if h.ListDoc? then Min(50, |h.entries|) else 0)
    ensures h.ListDoc? ==> forall i :: 0 <= i < |r| ==> r[i] == h.entries[|h.entries| - 1 - i]
  {
    if h.ListDoc? && h.entries != [] then
      var n := |h.entries|;
      Reverse(h.entries[n - Min(50, n)..])
    else []
  }

  /** A row of the history panel: a bold time label, or a `HistoryItemWidget` for one file. */
  datatype HistoryRow = TimeRow(html: string) | FileRow(info: Transfer.ProcessedFile)

  function TimeHtml(time: string): string {
    "<b>" + time + "</b>"
  }

  function FileRows(fs: seq<Transfer.ProcessedFile>): (r: seq<HistoryRow>)
    ensures |r| == |fs|
    ensures forall i :: 0 <= i < |fs| ==> r[i] == FileRow(fs[i])
  {
    if fs == [] then [] else FileRows(fs[..|fs| - 1]) + [FileRow(fs[|fs| - 1])]
  }

  /** The rows of one entry: its time, then one row per file. */
  function EntryRows(e: HistoryEntry): seq<HistoryRow> {
    [TimeRow(TimeHtml(e.time))] + FileRows(e.files)
  }

  /** The rows the panel shows for `entries`, in their order. */
  function HistoryRows(entries: seq<HistoryEntry>): seq<HistoryRow> {
    if entries == [] then [] else HistoryRows(entries[..|entries| - 1]) + EntryRows(entries[|entries| - 1])
  }

  lemma HistoryRowsStep(entries: seq<HistoryEntry>, i: nat)
    requires i < |entries|
    ensures HistoryRows(entries[..i + 1]) == HistoryRows(entries[..i]) + EntryRows(entries[i])
  {
    assert entries[..i + 1][..i] == entries[..i];
  }

  lemma FileRowsStep(fs: seq<Transfer.ProcessedFile>, j: nat)
    requires j < |fs|
    ensures FileRows(fs[..j + 1]) == FileRows(fs[..j]) + [FileRow(fs[j])]
  {
    assert fs[..j + 1][..j] == fs[..j];
  }

  /** The panel starts with the time of the first entry shown. */
  lemma {:induction false} HistoryRowsHead(entries: seq<HistoryEntry>)
    requires entries != []
    ensures HistoryRows(entries) != [] && HistoryRows(entries)[0] == TimeRow(TimeHtml(entries[0].time))
  {
    if |entries| > 1 {
      var init := entries[..|entries| - 1];
      HistoryRowsHead(init);
      assert init[0] == entries[0];
    }
  }

  /** After `save_history`, the entry just saved is the top of the panel. */
  lemma NewestShownFirst(h: Doc, e: HistoryEntry)
    ensures var h' := ListDoc(EntriesOf(h) + [e]);
            RecentHistory(h') != [] && RecentHistory(h')[0] == e
            && HistoryRows(RecentHistory(h'))[0] == TimeRow(TimeHtml(e.time))
  {
    var h' := ListDoc(EntriesOf(h) + [e]);
    HistoryRowsHead(RecentHistory(h'));
  }

  /**
   * The shared file: after the settings are saved, the history read from it is an object,
   * which the panel shows as empty; after the history is saved, the settings read from it
   * are the default.
   */
  lemma SharedFileClobbers(s: Settings, entries: seq<HistoryEntry>)
    ensures RecentHistory(LoadHistory(Some(DictDoc(s)))) == []
    ensures HistoryRows(RecentHistory(LoadHistory(Some(DictDoc(s))))) == []
    ensures LoadSettings(Some(ListDoc(entries))) == map[HistoryVisible := Bool(true)]
  {
  }

  // --------------------------------------------------------------- file list

  /** An entry of `self.files`: the path and its custom name (always `None` when dropped). */
  type FileEntry = (Path, Option<string>)

  /** An item of the list widget; `id` stands for the item's identity. */
  datatype ListItem = ListItem(id: nat, text: string)

  /** A pending file with the widget item in the same row. */
  type Row = (FileEntry, ListItem)

  function Pairs(files: seq<FileEntry>, items: seq<ListItem>): (r: seq<Row>)
    requires |files| == |items|
    ensures |r| == |files| && forall i :: 0 <= i < |r| ==> r[i] == (files[i], items[i])
  {
    seq(|files|, i requires 0 <= i < |files| => (files[i], items[i]))
  }

  /** Each item shows its file's base name, identities are below `nextId` and distinct. */
  predicate ValidRows(rows: seq<Row>, nextId: nat) {
    (forall i :: 0 <= i < |rows| ==> rows[i].1.text == BaseName(rows[i].0.0) && rows[i].1.id < nextId)
    && DistinctIds(rows)
  }

  predicate DistinctIds(rows: seq<Row>) {
    forall i, j :: 0 <= i < j < |rows| ==> rows[i].1.id != rows[j].1.id
  }

  /** The rows whose item is not among `selected`, in their order. */
  function Unselected(rows: seq<Row>, selected: seq<nat>): seq<Row> {
    if rows == [] then []
    else
      var last := rows[|rows| - 1];
      Unselected(rows[..|rows| - 1], selected) + (if last.1.id in selected then [] else [last])
  }

  /** A row survives exactly when its item is not selected. */
  lemma {:induction false} UnselectedMembers(rows: seq<Row>, selected: seq<nat>, r: Row)
    ensures r in Unselected(rows, selected) <==> r in rows && r.1.id !in selected
  {
    if rows != [] {
      var init := rows[..|rows| - 1];
      UnselectedMembers(init, selected, r);
      assert rows == init + [rows[|rows| - 1]];
    }
  }

  /** Nothing selected among the rows: all of them stay. */
  lemma {:induction false} UnselectedNone(rows: seq<Row>, selected: seq<nat>)
    requires forall i :: 0 <= i < |rows| ==> rows[i].1.id !in selected
    ensures Unselected(rows, selected) == rows
  {
    if rows != [] {
      UnselectedNone(rows[..|rows| - 1], selected);
    }
  }

  /** Removing by one selection, then another, is removing by both. */
  lemma {:induction false} UnselectedTwice(rows: seq<Row>, a: seq<nat>, b: seq<nat>)
    ensures Unselected(Unselected(rows, a), b) == Unselected(rows, a + b)
  {
    if rows != [] {
      var init := rows[..|rows| - 1];
      var last := rows[|rows| - 1];
      UnselectedTwice(init, a, b);
      var u := Unselected(init, a);
      assert last.1.id in a + b <==> last.1.id in a || last.1.id in b;
      if last.1.id !in a {
        var v := u + [last];
        assert Unselected(rows, a) == v;
        assert v[..|v| - 1] == u && v[|v| - 1] == last;
        assert Unselected(v, b) == Unselected(u, b) + (if last.1.id in b then [] else [last]);
      } else {
        assert Unselected(rows, a) == u;
      }
    }
  }

  /** A sub-list of valid rows is valid. */
  lemma {:induction false} UnselectedValid(rows: seq<Row>, selected: seq<nat>, nextId: nat)
    requires ValidRows(rows, nextId)
    ensures ValidRows(Unselected(rows, selected), nextId)
  {
    if rows != [] {
      var init := rows[..|rows| - 1];
      var last := rows[|rows| - 1];
      ValidInit(rows, nextId);
      UnselectedValid(init, selected, nextId);
      var u := Unselected(init, selected);
      if last.1.id !in selected {
        forall r | r in u
          ensures r.1.id != last.1.id
        {
          UnselectedMembers(init, selected, r);
        }
        ValidAppend(u, last, nextId);
      }
    }
  }

  /** Valid rows without their last row are valid, and no other row shares the last row's identity. */
  lemma ValidInit(rows: seq<Row>, nextId: nat)
    requires ValidRows(rows, nextId) && rows != []
    ensures var init, last := rows[..|rows| - 1], rows[|rows| - 1];
            ValidRows(init, nextId) && last.1.text == BaseName(last.0.0) && last.1.id < nextId
            && forall r :: r in init ==> r.1.id != last.1.id
  {
    var init, last := rows[..|rows| - 1], rows[|rows| - 1];
    forall r | r in init
      ensures r.1.id != last.1.id
    {
      var i :| 0 <= i < |init| && init[i] == r;
      assert rows[i] == r;
    }
  }

  /** A row with the next fresh text and an identity no row has can be appended to valid rows. */
  lemma ValidAppend(u: seq<Row>, last: Row, nextId: nat)
    requires ValidRows(u, nextId) && last.1.text == BaseName(last.0.0) && last.1.id < nextId
    requires forall r :: r in u ==> r.1.id != last.1.id
    ensures ValidRows(u + [last], nextId)
  {
    var v := u + [last];
    assert forall i :: 0 <= i < |u| ==> v[i] == u[i] && u[i] in u;
  }

  /** Deleting row `k` is dropping the rows of its item, when identities are distinct. */
  lemma {:induction false} RemoveAt(rows: seq<Row>, k: nat)
    requires DistinctIds(rows) && k < |rows|
    ensures rows[..k] + rows[k + 1..] == Unselected(rows, [rows[k].1.id])
  {
    var init := rows[..|rows| - 1];
    var last := rows[|rows| - 1];
    var x := rows[k].1.id;
    if k == |rows| - 1 {
      assert forall i :: 0 <= i < |init| ==> init[i] == rows[i];
      UnselectedNone(init, [x]);
    } else {
      assert forall i :: 0 <= i < |init| ==> init[i] == rows[i];
      assert DistinctIds(init);
      RemoveAt(init, k);
      assert init[k] == rows[k];
      assert last.1.id != x;
      assert rows[..k] == init[..k];
      assert rows[k + 1..] == init[k + 1..] + [last];
    }
  }

  /** Deleting the same row from both lists deletes it from their pairing. */
  lemma PairsDelete(files: seq<FileEntry>, items: seq<ListItem>, k: nat)
    requires |files| == |items| && k < |files|
    ensures Pairs(files[..k] + files[k + 1..], items[..k] + items[k + 1..])
            == Pairs(files, items)[..k] + Pairs(files, items)[k + 1..]
  {
  }

  /** Whether the widget holds the item `id`. */
  predicate Shows(items: seq<ListItem>, id: nat) {
    exists j :: 0 <= j < |items| && items[j].id == id
  }

  /** The next selected item has not been removed yet: the widget still shows it. */
  lemma StillShown(selected: seq<nat>, i: nat, files: seq<FileEntry>, items: seq<ListItem>,
                   fs: seq<FileEntry>, its: seq<ListItem>)
    requires |files| == |items|
    requires forall k :: 0 <= k < |selected| ==> Shows(items, selected[k])
    requires forall k, l :: 0 <= k < l < |selected| ==> selected[k] != selected[l]
    requires i < |selected| && |fs| == |its| && Pairs(fs, its) == Unselected(Pairs(files, items), selected[..i])
    ensures Shows(its, selected[i])
  {
    var orig := Pairs(files, items);
    var x := selected[i];
    assert Shows(items, x);
    var j :| 0 <= j < |items| && items[j].id == x;
    assert x !in selected[..i];
    UnselectedMembers(orig, selected[..i], orig[j]);
    var k0 :| 0 <= k0 < |fs| && Pairs(fs, its)[k0] == orig[j];
    assert its[k0].id == x;
  }

  /** Deleting the row of the next selected item leaves the rows of the items not yet reached. */
  lemma DeleteSelected(selected: seq<nat>, i: nat, orig: seq<Row>, nextId: nat,
                       fs: seq<FileEntry>, its: seq<ListItem>, index: nat)
    requires ValidRows(orig, nextId)
    requires i < |selected| && |fs| == |its| && Pairs(fs, its) == Unselected(orig, selected[..i])
    requires index < |its| && its[index].id == selected[i]
    ensures Pairs(fs[..index] + fs[index + 1..], its[..index] + its[index + 1..]) == Unselected(orig, selected[..i + 1])
  {
    var x := selected[i];
    var cur := Pairs(fs, its);
    PrefixStep(selected, i);
    UnselectedValid(orig, selected[..i], nextId);
    PairsDelete(fs, its, index);
    RemoveAt(cur, index);
    UnselectedTwice(orig, selected[..i], [x]);
  }

  lemma PrefixStep<T>(s: seq<T>, i: nat)
    requires i < |s|
    ensures s[..i + 1] == s[..i] + [s[i]]
  {
  }

  /** `QListWidget.row(item)`: where the item is now. */
  function RowOf(items: seq<ListItem>, id: nat): (k: nat)
    requires Shows(items, id)
    ensures k < |items| && items[k].id == id
  {
    if items[0].id == id then 0
    else
      var j :| 0 <= j < |items| && items[j].id == id;
      assert items[1..][j - 1] == items[j];
      1 + RowOf(items[1..], id)
  }

  /** The extension test of `dropEvent`: the lower-cased extension is in some list of the table. */
  predicate Supported(table: seq<Category>, p: Path) {
    Listed(table, Lower(Ext(p)))
  }

  /** A file is accepted exactly when the transfer would give it a named category. */
  lemma SupportedIffCategorized(p: Path)
    ensures Supported(Transfer.DragTable, p) <==> Transfer.CategoryOf(Lower(Ext(p))) != Transfer.Other
  {
    Transfer.CategoryByExtension(Lower(Ext(p)));
  }

  /** The entries `dropEvent` appends for `urls`: existing files with a supported extension. */
  function Accepted(table: seq<Category>, urls: seq<Path>, isFile: set<Path>): seq<FileEntry> {
    if urls == [] then []
    else
      var p := urls[|urls| - 1];
      Accepted(table, urls[..|urls| - 1], isFile) + (if p in isFile && Supported(table, p) then [(p, None)] else [])
  }

  /** The files `dropEvent` warns about: existing files whose extension is not supported. */
  function Rejected(table: seq<Category>, urls: seq<Path>, isFile: set<Path>): seq<Path> {
    if urls == [] then []
    else
      var p := urls[|urls| - 1];
      Rejected(table, urls[..|urls| - 1], isFile) + (if p in isFile && !Supported(table, p) then [p] else [])
  }

  /** The new widget items: one per accepted entry, numbered from `id`. */
  function NewItems(entries: seq<FileEntry>, id: nat): (r: seq<ListItem>)
    ensures |r| == |entries|
  {
    if entries == [] then []
    else NewItems(entries[..|entries| - 1], id) + [ListItem(id + |entries| - 1, BaseName(entries[|entries| - 1].0))]
  }

  /** A dropped path that is appended: the list, the items and the counter each grow by it. */
  lemma DropAccept(table: seq<Category>, urls: seq<Path>, isFile: set<Path>, i: nat,
                   files: seq<FileEntry>, items: seq<ListItem>, nextId: nat,
                   fs: seq<FileEntry>, its: seq<ListItem>, id: nat)
    requires i < |urls| && urls[i] in isFile && Supported(table, urls[i])
    requires |fs| == |its| && ValidRows(Pairs(fs, its), id)
    requires fs == files + Accepted(table, urls[..i], isFile)
    requires its == items + NewItems(Accepted(table, urls[..i], isFile), nextId)
    requires id == nextId + |Accepted(table, urls[..i], isFile)|
    ensures var e := (urls[i], None);
            var item := ListItem(id, BaseName(urls[i]));
            && ValidRows(Pairs(fs + [e], its + [item]), id + 1)
            && fs + [e] == files + Accepted(table, urls[..i + 1], isFile)
            && its + [item] == items + NewItems(Accepted(table, urls[..i + 1], isFile), nextId)
            && id + 1 == nextId + |Accepted(table, urls[..i + 1], isFile)|
            && Accepted(table, urls[..i + 1], isFile) != []
            && Rejected(table, urls[..i + 1], isFile) == Rejected(table, urls[..i], isFile)
  {
    var p := urls[i];
    var item := ListItem(id, BaseName(p));
    PrefixStep(urls, i);
    var a := Accepted(table, urls[..i], isFile);
    assert Accepted(table, urls[..i + 1], isFile) == a + [(p, None)];
    assert (a + [(p, None)])[..|a|] == a;
    assert NewItems(a + [(p, None)], nextId) == NewItems(a, nextId) + [item];
    AppendRow(fs, its, id, (p, None), item);
  }

  /** A dropped path that is not appended: only a warning, for an existing file. */
  lemma DropOther(table: seq<Category>, urls: seq<Path>, isFile: set<Path>, i: nat)
    requires i < |urls| && !(urls[i] in isFile && Supported(table, urls[i]))
    ensures Accepted(table, urls[..i + 1], isFile) == Accepted(table, urls[..i], isFile)
    ensures Rejected(table, urls[..i + 1], isFile)
            == Rejected(table, urls[..i], isFile) + (if urls[i] in isFile then [urls[i]] else [])
  {
    PrefixStep(urls, i);
  }

  /** Where the loop of `dropEvent` stands after the first `i` dropped paths. */
  predicate DropState(table: seq<Category>, urls: seq<Path>, isFile: set<Path>, i: nat,
                      files: seq<FileEntry>, items: seq<ListItem>, nextId: nat,
                      fs: seq<FileEntry>, its: seq<ListItem>, id: nat, appended: bool, warned: seq<Path>)
    requires i <= |urls|
  {
    var a := Accepted(table, urls[..i], isFile);
    && |fs| == |its| && ValidRows(Pairs(fs, its), id)
    && fs == files + a && its == items + NewItems(a, nextId) && id == nextId + |a|
    && appended == (a != []) && warned == Rejected(table, urls[..i], isFile)
  }

  lemma DropAcceptStep(table: seq<Category>, urls: seq<Path>, isFile: set<Path>, i: nat,
                       files: seq<FileEntry>, items: seq<ListItem>, nextId: nat,
                       fs: seq<FileEntry>, its: seq<ListItem>, id: nat, appended: bool, warned: seq<Path>)
    requires i < |urls| && urls[i] in isFile && Supported(table, urls[i])
    requires DropState(table, urls, isFile, i, files, items, nextId, fs, its, id, appended, warned)
    ensures DropState(table, urls, isFile, i + 1, files, items, nextId,
                      fs + [(urls[i], None)], its + [ListItem(id, BaseName(urls[i]))], id + 1, true, warned)
  {
    DropAccept(table, urls, isFile, i, files, items, nextId, fs, its, id);
  }

  lemma DropOtherStep(table: seq<Category>, urls: seq<Path>, isFile: set<Path>, i: nat,
                      files: seq<FileEntry>, items: seq<ListItem>, nextId: nat,
                      fs: seq<FileEntry>, its: seq<ListItem>, id: nat, appended: bool, warned: seq<Path>)
    requires i < |urls| && !(urls[i] in isFile && Supported(table, urls[i]))
    requires DropState(table, urls, isFile, i, files, items, nextId, fs, its, id, appended, warned)
    ensures DropState(table, urls, isFile, i + 1, files, items, nextId, fs, its, id, appended,
                      warned + (if urls[i] in isFile then [urls[i]] else []))
  {
    DropOther(table, urls, isFile, i);
  }

  /** Appending a file and an item showing its base name, under a fresh identity, keeps the rows valid. */
  lemma AppendRow(fs: seq<FileEntry>, its: seq<ListItem>, id: nat, e: FileEntry, item: ListItem)
    requires |fs| == |its| && ValidRows(Pairs(fs, its), id)
    requires item.id == id && item.text == BaseName(e.0)
    ensures Pairs(fs + [e], its + [item]) == Pairs(fs, its) + [(e, item)]
    ensures ValidRows(Pairs(fs + [e], its + [item]), id + 1)
  {
    assert Pairs(fs + [e], its + [item]) == Pairs(fs, its) + [(e, item)];
  }

  /** What is accepted is exactly the dropped existing files with a supported extension, as `(path, None)`. */
  lemma {:induction false} AcceptedMembers(table: seq<Category>, urls: seq<Path>, isFile: set<Path>, e: FileEntry)
    ensures e in Accepted(table, urls, isFile) <==> e.1 == None && e.0 in urls && e.0 in isFile && Supported(table, e.0)
  {
    if urls != [] {
      var init := urls[..|urls| - 1];
      AcceptedMembers(table, init, isFile, e);
      assert urls == init + [urls[|urls| - 1]];
    }
  }

  /** A drop of nothing but unsupported or missing files adds nothing. */
  lemma {:induction false} NothingSupported(table: seq<Category>, urls: seq<Path>, isFile: set<Path>)
    requires forall i :: 0 <= i < |urls| ==> urls[i] !in isFile || !Supported(table, urls[i])
    ensures Accepted(table, urls, isFile) == []
  {
    if urls != [] {
      NothingSupported(table, urls[..|urls| - 1], isFile);
    }
  }

  /** No dropped file is both appended and warned about. */
  lemma AcceptedOrRejected(table: seq<Category>, urls: seq<Path>, isFile: set<Path>, p: Path)
    ensures p in Rejected(table, urls, isFile) ==> (p, None) !in Accepted(table, urls, isFile)
  {
    RejectedMembers(table, urls, isFile, p);
    AcceptedMembers(table, urls, isFile, (p, None));
  }

  lemma {:induction false} RejectedMembers(table: seq<Category>, urls: seq<Path>, isFile: set<Path>, p: Path)
    ensures p in Rejected(table, urls, isFile) <==> p in urls && p in isFile && !Supported(table, p)
  {
    if urls != [] {
      var init := urls[..|urls| - 1];
      RejectedMembers(table, init, isFile, p);
      assert urls == init + [urls[|urls| - 1]];
    }
  }

  /** The two buttons' texts: the setting's name, then on or off. */
  function SwitchText(name: string, on: bool): string {
    name + ": " + (if on then "开启" else "关闭")
  }

  /** A button text tells the state it shows. */
  lemma SwitchTextShowsState(name: string, a: bool, b: bool)
    ensures SwitchText(name, a) == SwitchText(name, b) <==> a == b
    ensures SwitchText(name, a)[..|name|] == name
  {
    if a != b {
      var t := SwitchText(name, a);
      var u := SwitchText(name, b);
      assert t[|name| + 2] != u[|name| + 2];
    }
  }

  // ------------------------------------------------------------------ window

  /** `FileManagerApp`: the state shown above, and the one file history and settings share. */
  class FileManagerApp {
    var stored: Store
    var settings: Settings
    var targetDir: Value
    var categorizeFiles: Value
    var autoRenameImages: Value
    var renamePattern: Value
    var files: seq<FileEntry>
    var items: seq<ListItem>
    var nextId: nat
    var executeEnabled: bool
    var history: Doc
    var historyRows: seq<HistoryRow>
    var dockVisible: bool

    predicate Valid()
      reads this
    {
      |files| == |items| && ValidRows(Pairs(files, items), nextId)
    }

    /** `__init__` (the part that is not widget construction), reading the file `stored`. */
    constructor (stored: Store, defaultDir: Path)
      ensures Valid() && this.stored == stored
      ensures settings == LoadSettings(stored)
      ensures targetDir == Get(settings, "target_dir", Str(defaultDir))
      ensures categorizeFiles == Get(settings, "categorize_files", Bool(false))
      ensures autoRenameImages == Get(settings, "auto_rename_images", Bool(true))
      ensures renamePattern == Get(settings, "rename_pattern", Str("秒级时间戳+序号"))
      ensures files == [] && items == [] && !executeEnabled
      ensures history == LoadHistory(stored) && historyRows == HistoryRows(RecentHistory(history))
      ensures dockVisible == Truthy(Get(settings, HistoryVisible, Bool(true)))
    {
      this.stored := stored;
      var s := LoadSettings(stored);
      settings := s;
      targetDir := Get(s, "target_dir", Str(defaultDir));
      files := [];
      items := [];
      nextId := 0;
      var h := LoadHistory(stored);
      history := h;
      categorizeFiles := Get(s, "categorize_files", Bool(false));
      autoRenameImages := Get(s, "auto_rename_images", Bool(true));
      renamePattern := Get(s, "rename_pattern", Str("秒级时间戳+序号"));
      executeEnabled := false;
      dockVisible := Truthy(Get(s, HistoryVisible, Bool(true)));
      historyRows := HistoryRows(RecentHistory(h));
    }

    function ImageRenameButtonText(): string
      reads this
    {
      SwitchText("图片重命名", Truthy(autoRenameImages))
    }

    function CategoryButtonText(): string
      reads this
    {
      SwitchText("分类设置", Truthy(categorizeFiles))
    }

    /** The pending list, its widget and the execute button are as they were. */
    twostate predicate ListUnchanged()
      reads this
    {
      files == old(files) && items == old(items) && nextId == old(nextId) && executeEnabled == old(executeEnabled)
    }

    /** The history and its panel are as they were. */
    twostate predicate HistoryUnchanged()
      reads this
    {
      history == old(history) && historyRows == old(historyRows)
    }

    /** The options and the panel visibility are as they were. */
    twostate predicate OptionsUnchanged()
      reads this
    {
      settings == old(settings) && targetDir == old(targetDir) && categorizeFiles == old(categorizeFiles)
      && autoRenameImages == old(autoRenameImages) && renamePattern == old(renamePattern)
      && dockVisible == old(dockVisible)
    }

    /** `save_settings`: the shared file now holds the five settings. */
    method SaveSettings()
      modifies this
      ensures stored == Some(DictDoc(SavedSettings(targetDir, autoRenameImages, renamePattern, settings, categorizeFiles)))
      ensures ListUnchanged() && HistoryUnchanged() && OptionsUnchanged()
    {
      stored := Some(DictDoc(SavedSettings(targetDir, autoRenameImages, renamePattern, settings, categorizeFiles)));
    }

    /** `toggle_history_panel`: flip the panel, record its new state in the settings, save them. */
    method ToggleHistoryPanel()
      modifies this
      ensures dockVisible == !old(dockVisible)
      ensures settings == old(settings)[HistoryVisible := Bool(dockVisible)]
      ensures stored == Some(DictDoc(SavedSettings(targetDir, autoRenameImages, renamePattern, settings, categorizeFiles)))
      ensures targetDir == old(targetDir) && categorizeFiles == old(categorizeFiles)
              && autoRenameImages == old(autoRenameImages) && renamePattern == old(renamePattern)
      ensures ListUnchanged() && HistoryUnchanged()
    {
      if dockVisible {
        dockVisible := false;
        settings := settings[HistoryVisible := Bool(false)];
      } else {
        dockVisible := true;
        settings := settings[HistoryVisible := Bool(true)];
      }
      SaveSettings();
    }

    /** `clear_file_list`: no pending files, an empty widget, execute disabled. */
    method ClearFileList()
      modifies this
      ensures files == [] && items == [] && !executeEnabled && Valid()
      ensures nextId == old(nextId) && stored == old(stored)
      ensures HistoryUnchanged() && OptionsUnchanged()
    {
      files := [];
      items := [];
      executeEnabled := false;
    }

    /**
     * `dropEvent`: each dropped path that is a regular file is appended as `(path, None)`,
     * with an item showing its base name, when its lower-cased extension is in some list
     * of the table; otherwise it is warned about.  Paths that are not files are skipped.
     */
    method DropEvent(urls: seq<Path>, isFile: set<Path>) returns (warned: seq<Path>)
      requires Valid()
      modifies this
      ensures Valid()
      ensures files == old(files) + Accepted(Transfer.DragTable, urls, isFile)
      ensures items == old(items) + NewItems(Accepted(Transfer.DragTable, urls, isFile), old(nextId))
      ensures nextId == old(nextId) + |Accepted(Transfer.DragTable, urls, isFile)|
      ensures executeEnabled == (old(executeEnabled) || Accepted(Transfer.DragTable, urls, isFile) != [])
      ensures warned == Rejected(Transfer.DragTable, urls, isFile)
      ensures stored == old(stored) && HistoryUnchanged() && OptionsUnchanged()
    {
      var fs, its, id, appended;
      fs, its, id, appended, warned := DropLoop(Transfer.DragTable, urls, isFile, files, items, nextId);
      files, items, nextId := fs, its, id;
      if appended {
        executeEnabled := true;
      }
    }

    /** The loop of `dropEvent`, over the list and the widget items as values. */
    static method DropLoop(table: seq<Category>, urls: seq<Path>, isFile: set<Path>, files: seq<FileEntry>, items: seq<ListItem>, nextId: nat)
      returns (fs: seq<FileEntry>, its: seq<ListItem>, id: nat, appended: bool, warned: seq<Path>)
      requires |files| == |items| && ValidRows(Pairs(files, items), nextId)
      ensures |fs| == |its| && ValidRows(Pairs(fs, its), id)
      ensures fs == files + Accepted(table, urls, isFile)
      ensures its == items + NewItems(Accepted(table, urls, isFile), nextId)
      ensures id == nextId + |Accepted(table, urls, isFile)|
      ensures appended == (Accepted(table, urls, isFile) != [])
      ensures warned == Rejected(table, urls, isFile)
    {
      fs, its, id, appended, warned := files, items, nextId, false, [];
      assert urls[..0] == [];
      for i := 0 to |urls|
        invariant DropState(table, urls, isFile, i, files, items, nextId, fs, its, id, appended, warned)
      {
        var p := urls[i];
        var supported := false;
        if p in isFile {
          var ext := Lower(Ext(p));
          var found := Lookup(table, ext);
          ListedIffMatch(table, ext);
          supported := found.Some?;
        }
        if p in isFile && supported {
          var item := ListItem(id, BaseName(p));
          DropAcceptStep(table, urls, isFile, i, files, items, nextId, fs, its, id, appended, warned);
          fs := fs + [(p, None)];
          its := its + [item];
          id := id + 1;
          appended := true;
        } else {
          DropOtherStep(table, urls, isFile, i, files, items, nextId, fs, its, id, appended, warned);
          if p in isFile {
            warned := warned + [p];
          }
        }
      }
      assert urls[..|urls|] == urls;
    }

    /**
     * `remove_selected_files`: for each selected item, find its current row, delete that
     * row from the files and from the widget; then disable execute if nothing is left.
     * `selected` holds the identities of distinct items of the widget.
     */
    method RemoveSelectedFiles(selected: seq<nat>)
      requires Valid()
      requires forall i :: 0 <= i < |selected| ==> Shows(items, selected[i])
      requires forall i, j :: 0 <= i < j < |selected| ==> selected[i] != selected[j]
      modifies this
      ensures Valid()
      ensures Pairs(files, items) == Unselected(old(Pairs(files, items)), selected)
      ensures |files| == old(|files|) - |selected|
      ensures executeEnabled == (old(executeEnabled) && files != [])
      ensures nextId == old(nextId) && stored == old(stored) && HistoryUnchanged() && OptionsUnchanged()
    {
      var fs, its := RemoveLoop(selected, files, items, nextId);
      files, items := fs, its;
      if files == [] {
        executeEnabled := false;
      }
    }

    /** The loop of `remove_selected_files`, over the list and the widget items as values. */
    static method RemoveLoop(selected: seq<nat>, files: seq<FileEntry>, items: seq<ListItem>, nextId: nat)
      returns (fs: seq<FileEntry>, its: seq<ListItem>)
      requires |files| == |items| && ValidRows(Pairs(files, items), nextId)
      requires forall i :: 0 <= i < |selected| ==> Shows(items, selected[i])
      requires forall i, j :: 0 <= i < j < |selected| ==> selected[i] != selected[j]
      ensures |fs| == |its| && ValidRows(Pairs(fs, its), nextId)
      ensures Pairs(fs, its) == Unselected(Pairs(files, items), selected)
      ensures |fs| == |files| - |selected|
    {
      ghost var orig := Pairs(files, items);
      fs, its := files, items;
      UnselectedNone(orig, []);
      for i := 0 to |selected|
        invariant |fs| == |its| && |fs| == |orig| - i
        invariant Pairs(fs, its) == Unselected(orig, selected[..i])
      {
        StillShown(selected, i, files, items, fs, its);
        var index := RowOf(its, selected[i]);
        DeleteSelected(selected, i, orig, nextId, fs, its, index);
        fs := fs[..index] + fs[index + 1..];
        its := its[..index] + its[index + 1..];
      }
      UnselectedValid(orig, selected, nextId);
      assert selected[..|selected|] == selected;
    }

    /** `load_history_to_list`: rebuild the panel from the recent entries; the history itself is left alone. */
    method LoadHistoryToList()
      modifies this
      ensures historyRows == HistoryRows(RecentHistory(history))
      ensures history == old(history) && stored == old(stored) && ListUnchanged() && OptionsUnchanged()
    {
      var recent := RecentHistory(history);
      var rows := BuildRows(recent);
      historyRows := rows;
    }

    /** The loop of `load_history_to_list` over the recent entries. */
    static method BuildRows(recent: seq<HistoryEntry>) returns (rows: seq<HistoryRow>)
      ensures rows == HistoryRows(recent)
    {
      rows := [];
      for i := 0 to |recent|
        invariant rows == HistoryRows(recent[..i])
      {
        HistoryRowsStep(recent, i);
        rows := AddEntryRows(rows, recent[i]);
      }
      assert recent[..|recent|] == recent;
    }

    /** The body of the loop of `load_history_to_list`: add the time label, then one row per file. */
    static method AddEntryRows(rows: seq<HistoryRow>, entry: HistoryEntry) returns (r: seq<HistoryRow>)
      ensures r == rows + EntryRows(entry)
    {
      r := rows + [TimeRow(TimeHtml(entry.time))];
      for j := 0 to |entry.files|
        invariant r == rows + [TimeRow(TimeHtml(entry.time))] + FileRows(entry.files[..j])
      {
        FileRowsStep(entry.files, j);
        r := r + [FileRow(entry.files[j])];
      }
      assert entry.files[..|entry.files|] == entry.files;
    }

    /**
     * `save_history`: reset a history that is not a list, append one entry with the
     * given time, write the shared file, and rebuild the panel.
     */
    method SaveHistory(processedFiles: seq<Transfer.ProcessedFile>, now: string)
      modifies this
      ensures history == ListDoc(EntriesOf(old(history)) + [HistoryEntry(now, processedFiles)])
      ensures stored == Some(history)
      ensures historyRows == HistoryRows(RecentHistory(history))
      ensures ListUnchanged() && OptionsUnchanged()
    {
      if !history.ListDoc? {
        history := ListDoc([]);
      }
      history := ListDoc(history.entries + [HistoryEntry(now, processedFiles)]);
      stored := Some(history);
      LoadHistoryToList();
    }

    /** `handle_transfer_complete` (without the result dialog): save the history, then clear the list. */
    method HandleTransferComplete(processedFiles: seq<Transfer.ProcessedFile>, now: string)
      modifies this
      ensures history == ListDoc(EntriesOf(old(history)) + [HistoryEntry(now, processedFiles)])
      ensures stored == Some(history) && historyRows == HistoryRows(RecentHistory(history))
      ensures files == [] && items == [] && !executeEnabled && Valid()
      ensures nextId == old(nextId) && OptionsUnchanged()
    {
      SaveHistory(processedFiles, now);
      ClearFileList();
    }
  }
}
