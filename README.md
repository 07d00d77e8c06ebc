# Note-Resource-Explorer: a verified model of its core

Note-Resource-Explorer is a pair of PyQt6 desktop tools for collecting resources for notes:

- the **drag manager** (FileDragManager). Files dropped on its window are queued; a worker thread then moves them into a target directory, optionally sorted into category sub-directories, optionally renaming images after the clock. A run whose setup succeeds is recorded in a history panel whose rows copy a Markdown link, an HTML tag or the path of a moved file; a run whose setup fails only shows an error message;
- the **file viewer** (file_viewer_gui). It shows the files of one folder in one tab per category. Its own copy actions choose the Markdown link and the HTML tag by the file's extension, not by a category name, and its tags differ from the history panel's.

This project models the parts of both tools that compute something, and proves properties of the model:

| module | file | models |
|---|---|---|
| `Wrappers` | wrappers.dfy | `Option`, for `None` and missing keys |
| `Text` | text.dfy | POSIX `basename`, `join` and `splitext`; ASCII `lower()`; `f"{n:02d}"` and `int()` on digit strings |
| `Categories` | categories.dfy | the ordered `FILE_CATEGORIES` tables, searched front to back, first match wins |
| `Transfer` | transfer.dfy | `FileTransferThread.run`: classification, naming, destination, the per-file loop, the fatal setup |
| `Markup` | markup.dfy | the Markdown and HTML builders shared by both tools, the readers that take them apart again, and the clipboard |
| `HistoryItem` | history_item.dfy | `HistoryItemWidget`: its label and its three copy buttons |
| `FileOperations` | file_operations.dfy | `copy_html_code`, `copy_md_link` and the thumbnail condition of `display_file` |
| `FolderView` | folder_view.dfy | `display_folder_contents` and the two filter handlers |
| `DragManager` | drag_manager.dfy | `FileManagerApp`: the pending file list, the execute flag, the history panel, and the settings |

How the model is built:

- **The engine is a class over an abstract filesystem.** `Transfer.FileTransferThread.Run` is imperative, and so are its steps; each is proved equal to a closed-form specification (`Execute`, `PlanAt`, `OutcomeAt`, `FsAfter`).
  - The filesystem is the class `Transfer.FileSystem`. It holds a set of directories and a set of files. Two fault tables say which `makedirs` and which moves raise, and with what message.
  - The clock is a parameter: `clock(i)` is what `datetime.now()` formats to while the `i`-th file is handled.
  - The three signals become a trace of `Signal` values: `Progress`, `Complete` and `Fatal`.
- **Both windows are classes whose methods update their fields.** `DragManager.FileManagerApp` and `FolderView.FileViewerApp` have fields that the methods reassign, `modifies` clauses, and contracts that state the whole new state.
  - The pending files and the list widget's items are two sequences. They are proved to stay index-aligned.
  - The history and the settings live in one file: FileDragManager/main.py:39-40 gives `history_file` and `settings_file` the same path. It is modelled as the single field `stored`, so whichever was written last is what the next load of either one reads.
- **The string builders are functions.** Markdown links are read back by `ParseLink`; HTML opening tags are built by `OpenTag` from an element name and a list of attributes, and read back by `ReadTag`. Lemmas prove that each reader recovers exactly what the builder was given, attribute list included, and separate lemmas prove that each builder gives the source's f-string character for character.

How the engine behaves in a few places where it is easy to misread (all in FileDragManager/utils.py):

- The progress signal is emitted before the move (line 121 comes before line 135), so a file whose move fails also gets one.
- The extension appended to every new name is the lower-cased one (line 79, used at line 118), for a video as for any other file.
- A rename pattern that is neither of the two known ones falls back to the second-level pattern (lines 101-104).
- The image counter is formatted with `:02d` (line 96): at least two digits, so it has three digits from 100 on.

## Model

| member | source | states |
|---|---|---|
| Text.Lower | FileDragManager/utils.py:79 | `ext.lower()`, character by character; the result has the length of the input (ASCII only, see Left out); `LowerAt` and `LowerIdempotent` state what it does |
| Text.BaseName | FileDragManager/utils.py:89 | `os.path.basename`: what follows the last '/'; `BaseNameNoSlash` and `BaseNameOfJoin` state its properties |
| Text.Join | FileDragManager/utils.py:113-118 | `os.path.join` of two components: an absolute second component replaces the first, otherwise one separator is put between them; `JoinExtends` and `JoinInjective` state its properties |
| Text.Ext | FileDragManager/utils.py:78 | `os.path.splitext(p)[1]`: the extension of the last component, leading dots not counting; `SplitExtRoundTrip` states what it splits off |
| Text.NameStem | FileDragManager/utils.py:89 | `os.path.splitext(name)[0]`: the name without its extension; `SplitExtRoundTrip` says stem and extension give the name again |
| Text.LowerAt | FileDragManager/utils.py:79 | lower-casing maps each character on its own, so only ASCII capitals change |
| Text.LowerIdempotent | FileDragManager/utils.py:79 | lower-casing an already lower-cased extension changes nothing |
| Text.BaseNameNoSlash | file_viewer_gui/file_operations.py:187 | a base name never contains a separator |
| Text.BaseNameOfJoin | FileDragManager/utils.py:141-143 | the base name of `join(a, b)` is `b` when `b` has no separator |
| Text.JoinExtends | FileDragManager/utils.py:63 | joining a relative non-empty component gives a different, longer path |
| Text.JoinInjective | FileDragManager/utils.py:62-63 | different relative components joined onto one directory give different paths |
| Text.SplitExtRoundTrip | FileDragManager/utils.py:78-90 | stem followed by extension is the name again; an extension is empty or a dot followed by no other dot |
| Text.Decimal | FileDragManager/utils.py:96 | the decimal form of a counter is all digits, with at least two of them from 10 on |
| Text.Pad2 | FileDragManager/utils.py:96 | `{n:02d}` has at least two characters, all digits |
| Text.Pad2Inverse | FileDragManager/utils.py:96 | reading a padded counter back gives the counter |
| Text.Pad2Injective | FileDragManager/utils.py:96 | different counters are formatted differently |
| Text.Pad2Examples | FileDragManager/utils.py:96 | counters 1, 2, 10 and 123 format as "01", "02", "10" and "123" |
| Text.Take | FileDragManager/utils.py:98 | `s[:3]` is the prefix of length at most 3 |
| Categories.FirstMatch | FileDragManager/utils.py:83-86 | the index found holds the extension and no earlier entry does; `None` exactly when no entry holds it |
| Categories.Lookup | FileDragManager/utils.py:83-86 | the loop with early `break` returns the first matching entry |
| Categories.FirstMatchUnique | FileDragManager/utils.py:83-86 | "first entry that lists the extension" determines the answer uniquely |
| Categories.ListedIffMatch | FileDragManager/main.py:887-890 | `any(ext in exts ...)` holds exactly when the first-match search succeeds |
| Categories.DisjointMatch | FileDragManager/utils.py:17-24 | in a table without overlaps, any entry that lists the extension is the first match |
| Transfer.CategoryOf | FileDragManager/utils.py:82-86 | the category loop over `FILE_CATEGORIES`, mapped through `EN_CATEGORY_MAP`; `CategoryByExtension` and `CategoryInFirstMatch` state which category it gives |
| Transfer.CategoryFoldersAreMapValues | FileDragManager/utils.py:26-32 | the five folder names are the values of `EN_CATEGORY_MAP`, and every table key has one |
| Transfer.CategoryInFirstMatch | FileDragManager/utils.py:82-86 | the category loop gives the folder of the first matching entry, and "其他" exactly when none matches |
| Transfer.DragTableDisjoint | FileDragManager/utils.py:17-24 | no extension is in two lists of the drag manager's table |
| Transfer.FoldersByPosition | FileDragManager/utils.py:17-32 | entry `i` is filed under folder `i`; the folders are distinct and none is "其他" |
| Transfer.CategoryByExtension | FileDragManager/utils.py:78-86 | the category is folder `k` exactly when list `k` holds the lower-cased extension; it is "其他" exactly when no list does |
| Transfer.LookupCategory | FileDragManager/utils.py:82-86 | the loop computes the category of the extension |
| Transfer.AfterMakeDirs | FileDragManager/utils.py:55 | `makedirs` succeeds exactly when no fault is listed and nothing exists at the path; it then adds the directory, and on failure it changes nothing |
| Transfer.AfterMove | FileDragManager/utils.py:135 | a move succeeds exactly when the source exists and no fault is listed; it then takes the file from the source to the destination, and on failure it changes nothing |
| Transfer.FileSystem.constructor | FileDragManager/utils.py:53-55 | the filesystem starts in the given state |
| Transfer.FileSystem.MakeDirs | FileDragManager/utils.py:55 | the object's new state and error are those of `AfterMakeDirs` |
| Transfer.FileSystem.Move | FileDragManager/utils.py:135 | the object's new state and error are those of `AfterMove` |
| Transfer.SetupCategories | FileDragManager/utils.py:61-69 | creating the category directories never touches files |
| Transfer.Setup | FileDragManager/utils.py:53-69 | setup never touches files, and what it reports is a `Fatal` signal |
| Transfer.CountBelow | FileDragManager/utils.py:72 | counting the renamed images before a position gives at most that position |
| Transfer.Tabulate | FileDragManager/utils.py:75-151 | the per-file lists have one element per file, in input order |
| Transfer.OutcomeAppended | FileDragManager/utils.py:138-151 | one more outcome appends its entry to exactly one of `error_files` and `processed_files` |
| Transfer.ExecuteWhenSetupFails | FileDragManager/utils.py:53-69 | a failed setup is the whole run: one `Fatal` signal, and the setup's filesystem |
| Transfer.CounterStep | FileDragManager/utils.py:92-106 | `image_counter` goes up by one exactly after an image takes the rename branch |
| Transfer.CounterIncreases | FileDragManager/utils.py:72-106 | a later file sees a strictly larger counter than an earlier renamed image |
| Transfer.PlaceFileSucceeds | FileDragManager/utils.py:130-135 | the file is placed exactly when its directory exists or can be made and the move neither faults nor misses its source; then the file moves from the source to the destination, and otherwise the files are unchanged |
| Transfer.FileStepAt | FileDragManager/utils.py:75-151 | one loop pass gives the next filesystem, the outcome and the progress signal of that file |
| Transfer.OutcomeOfFile | FileDragManager/utils.py:138-151 | a failure is reported with the file's own source path; a file is recorded exactly when it was placed, and then with its plan's record |
| Transfer.PartitionCount | FileDragManager/utils.py:75-153 | `len(error_files) + len(processed_files)` is the number of files |
| Transfer.PartitionMembers | FileDragManager/utils.py:75-153 | an entry is in `error_files` (`processed_files`) exactly when some file failed (was moved) with it |
| Transfer.Percent | FileDragManager/utils.py:121 | the progress percentage of file `idx + 1` of `total`; `PercentBounds` states its range |
| Transfer.PercentBounds | FileDragManager/utils.py:121 | the percentage stays within 0..100 and is 100 for the last file |
| Transfer.ImageName | FileDragManager/utils.py:94-104 | the timestamp, the millisecond prefix for the millisecond pattern only, '_' and the padded counter; `PatternFallback`, `ImageNameSuffix` and `RenamedImagesDistinct` state its properties |
| Transfer.NewName | FileDragManager/utils.py:88-109 | the new base name in the source's priority order: a video's stem, a renamed image's timestamp name, the custom name, the stem; `VideoKeepsStem` and `OtherFilesKeepCustomName` state the branches |
| Transfer.PlanFile | FileDragManager/utils.py:77-118 | the extension, category, new name, directory and path decided for one file before it is moved; `Destination` states them |
| Transfer.Record | FileDragManager/utils.py:138-144 | the `processed_files` entry of a moved file: name with extension, category, folder, path and relative path; `Destination` and `CopiedPathEndsWithName` state its fields |
| Transfer.VideoKeepsStem | FileDragManager/utils.py:89-90 | a video keeps its stem, whatever the custom name and the rename setting |
| Transfer.OtherFilesKeepCustomName | FileDragManager/utils.py:107-109 | a file that is neither a video nor a renamed image takes its custom name when it is non-empty, and its stem otherwise |
| Transfer.PatternFallback | FileDragManager/utils.py:94-104 | any pattern other than the millisecond one names images like the second-level pattern |
| Transfer.ImageNameSuffix | FileDragManager/utils.py:94-104 | every image name ends in '_' followed by the padded counter |
| Transfer.RenamedImagesDistinct | FileDragManager/utils.py:72-106 | two renamed images of one run get different names |
| Transfer.Destination | FileDragManager/utils.py:112-144 | the file goes to `target/category` exactly when categorising is on and the category is known; the file name is the new name plus the lower-cased extension; the record's name, folder and relative path follow |
| Transfer.SetupCategoriesGrows | FileDragManager/utils.py:61-69 | creating the category directories only adds directories; when it succeeds, all of them exist |
| Transfer.SetupCategoriesFails | FileDragManager/utils.py:61-69 | with distinct directories, the category step fails exactly when one of them is missing and cannot be made |
| Transfer.CategoryDirsDistinct | FileDragManager/utils.py:62-63 | the five category directories are five different paths |
| Transfer.SetupOutcome | FileDragManager/utils.py:53-69 | setup fails exactly when the target, or (with categorising on) a category directory, is missing and cannot be made; otherwise they all exist afterwards |
| Transfer.Execute | FileDragManager/utils.py:48-153 | the whole run as a trace of signals and a final filesystem; `RunShape`, `PartitionCount` and `PartitionMembers` state its shape, and `FileTransferThread.Run` is proved equal to it |
| Transfer.RunShape | FileDragManager/utils.py:48-153 | a failed setup emits only `Fatal` and moves nothing; otherwise one `Progress` per file in order, then one `Complete` whose lists hold one entry per file; the trace ends in `Complete` exactly when setup succeeded |
| Transfer.FileTransferThread.constructor | FileDragManager/utils.py:39-46 | the thread keeps its arguments, and `total_files` is the length of the list |
| Transfer.FileTransferThread.PrepareDirectories | FileDragManager/utils.py:52-69 | the directory steps change the filesystem as `Setup` does and report its `Fatal` signal |
| Transfer.FileTransferThread.PlanTransfer | FileDragManager/utils.py:77-118 | the loop body's decisions are the file's plan, and the counter moves on as `CounterAt` says |
| Transfer.FileTransferThread.Place | FileDragManager/utils.py:130-135 | the `makedirs` and the move change the filesystem as `PlaceFile` does |
| Transfer.FileTransferThread.TransferFile | FileDragManager/utils.py:75-151 | one pass gives the file's progress signal and outcome, and the filesystem after it |
| Transfer.FileTransferThread.MoveFiles | FileDragManager/utils.py:71-153 | the loop emits every file's progress signal, then `Complete` with the failed and the moved files in order |
| Transfer.FileTransferThread.Run | FileDragManager/utils.py:48-153 | the trace and the final filesystem are those of `Execute` |
| Markup.ParseLink | FileDragManager/history.py:93-104 | a string that reads as a link is at least four characters long and ends in ')' |
| Markup.ImageMark | FileDragManager/history.py:93-94 | a link starts with '!' exactly when it embeds an image |
| Markup.LinkRoundTrip | FileDragManager/history.py:93-104 | `[text](target)` and `![text](target)` read back as their text, target and image flag, when the text has no ']' |
| Markup.OpenTag | FileDragManager/history.py:114-125 | an opening tag: '<', the element, each attribute as ` name="value"` or a bare ` name`, and '>'; `TagRoundTrip` states that `ReadTag` takes it apart again |
| Markup.ReadAttrs | FileDragManager/history.py:114-125 | reading the attributes of an opening tag either fails or leaves a rest shorter than the input; `ReadAttrsRest` states that the rest is what follows the tag's '>' |
| Markup.ReadAttrsRest | FileDragManager/history.py:114-125 | when the attributes read, the text left over is exactly the end of the input that follows a '>' |
| Markup.ReadTag | FileDragManager/history.py:114-125 | a tag that reads starts with '<', and the text after it is shorter than the input |
| Markup.AttrsRoundTrip | FileDragManager/history.py:114-125 | the text of well-formed attributes followed by '>' reads back as exactly those attributes, in order, and the text after the '>' |
| Markup.TagRoundTrip | FileDragManager/history.py:114-125 | an opening tag with a plain element name and well-formed attributes, followed by any text, reads back as its element, its whole attribute list and that text |
| Markup.Clipboard.SetText | FileDragManager/history.py:106-107 | the clipboard holds the text |
| HistoryItem.Label | FileDragManager/history.py:21 | the label text `name → folder`; `LabelParts` states that both can be read off it |
| HistoryItem.Markdown | FileDragManager/history.py:93-104 | the Markdown of `copy_markdown`, an embedded image exactly for "images"; `MarkdownDecodes` states what it reads back as |
| HistoryItem.Html | FileDragManager/history.py:114-125 | the tag of `copy_html`, chosen by category; `HtmlDecodes` states what it reads back as |
| HistoryItem.LabelParts | FileDragManager/history.py:21 | the label starts with the file's name and, after its last arrow, holds the folder |
| HistoryItem.MarkdownDecodes | FileDragManager/history.py:93-104 | the Markdown reads back as a link to the record's path with its name; it embeds exactly for the "images" category |
| HistoryItem.ImageTagParts | FileDragManager/history.py:114-115 | the image tag reads back as `img` with exactly the attributes `src` = path, `alt` = name and `width` = "300", and nothing after it |
| HistoryItem.VideoTagParts | FileDragManager/history.py:116-117 | the video tag reads back as `video` with exactly `src` = path, a bare `controls` and `width` = "500", followed by `</video>` |
| HistoryItem.AudioTagParts | FileDragManager/history.py:118-119 | the audio tag reads back as `audio` with exactly `src` = path and a bare `controls`, followed by `Audio</audio>` |
| HistoryItem.AnchorTagParts | FileDragManager/history.py:120-125 | the link reads back as `a` with exactly `href` = path and `target` = "_blank", followed by the name and `</a>` |
| HistoryItem.ImageTagAsWritten | FileDragManager/history.py:115 | the image tag is `<img src="{path}" alt="{name}" width="300">` character for character |
| HistoryItem.VideoTagAsWritten | FileDragManager/history.py:117 | the video tag is `<video src="{path}" controls width="500"></video>` character for character |
| HistoryItem.AudioTagAsWritten | FileDragManager/history.py:119 | the audio tag is `<audio src="{path}" controls>Audio</audio>` character for character |
| HistoryItem.AnchorTagAsWritten | FileDragManager/history.py:121-125 | the link is `<a href="{path}" target="_blank">{name}</a>` character for character |
| HistoryItem.HtmlDecodes | FileDragManager/history.py:114-125 | the tag reads back as the element of the record's category ("a" for htmls, documents and unknown categories) with that category's whole attribute list, the path as `src` or `href`, and a link's text is the name |
| HistoryItem.CopiedPathEndsWithName | FileDragManager/utils.py:138-144 | for a record the engine made, the base name of the copied path is the name the label shows |
| HistoryItem.HistoryItemWidget.constructor | FileDragManager/history.py:12-21 | the widget keeps its record, and its label is `name → folder` |
| HistoryItem.HistoryItemWidget.CopyMarkdown | FileDragManager/history.py:88-107 | the clipboard holds the record's Markdown |
| HistoryItem.HistoryItemWidget.CopyHtml | FileDragManager/history.py:109-128 | the clipboard holds the record's HTML tag |
| HistoryItem.HistoryItemWidget.CopyPath | FileDragManager/history.py:130-134 | the clipboard holds the record's path, unchanged |
| FileOperations.HtmlCode | file_viewer_gui/file_operations.py:185-204 | the tag of `copy_html_code`, chosen by the first list, in source order, that holds the lower-cased extension; `HtmlCodeDecodes` states what it reads back as |
| FileOperations.MdLinkFor | file_viewer_gui/file_operations.py:206-225 | the link of `copy_md_link`, by the same order of tests, embedding only for image extensions; `MdLinkDecodes` states what it reads back as |
| FileOperations.WantsThumbnail | file_viewer_gui/file_operations.py:30-31 | the thumbnail test of `display_file` on the lower-cased extension; `ThumbnailIffImage` relates it to the link |
| FileOperations.ImageListsApart | file_viewer_gui/file_operations.py:191-198 | no image extension is in a list compared before the image list |
| FileOperations.AudioTagParts | file_viewer_gui/file_operations.py:191-192 | the audio tag reads back as `audio` with exactly `src` = path and a bare `controls`, and nothing after it |
| FileOperations.VideoTagParts | file_viewer_gui/file_operations.py:199-200 | the video tag reads back as `video` with exactly `src` = path and a bare `controls`, and nothing after it |
| FileOperations.ImageTagParts | file_viewer_gui/file_operations.py:197-198 | the image tag reads back as `img` with exactly `src` = path and `alt` = name, and nothing after it |
| FileOperations.AnchorTagParts | file_viewer_gui/file_operations.py:193-196 | the link reads back as `a` with exactly `href` = path, followed by the name and `</a>` |
| FileOperations.AudioTagAsWritten | file_viewer_gui/file_operations.py:192 | the audio tag is `<audio src="{file_path}" controls>` character for character |
| FileOperations.VideoTagAsWritten | file_viewer_gui/file_operations.py:200 | the video tag is `<video src="{file_path}" controls>` character for character |
| FileOperations.ImageTagAsWritten | file_viewer_gui/file_operations.py:198 | the image tag is `<img src="{file_path}" alt="{file_name}">` character for character |
| FileOperations.AnchorTagAsWritten | file_viewer_gui/file_operations.py:194 | the link is `<a href="{file_path}">{file_name}</a>` character for character |
| FileOperations.HtmlCodeDecodes | file_viewer_gui/file_operations.py:185-204 | the code reads back as the element picked by the ordered comparisons of the lower-cased extension (audio, document, html, image, video, default), with that branch's whole attribute list, the path as `src` or `href`; an image's `alt` and a link's text are the base name |
| FileOperations.MdLinkDecodes | file_viewer_gui/file_operations.py:206-225 | the link reads back as the base name and the path; it embeds exactly for image extensions |
| FileOperations.ThumbnailIffImage | file_viewer_gui/file_operations.py:30-31 | a thumbnail is tried exactly for image extensions, which are exactly the files whose Markdown link embeds them |
| FileOperations.CaseIgnored | file_viewer_gui/file_operations.py:185-225 | extensions that differ only in letter case get tags that read back as the same element, the same image flag and the same thumbnail decision |
| FileOperations.UpperCaseExtension | file_viewer_gui/file_operations.py:30-31 | ".PNG" is treated as ".png" and gets a thumbnail |
| FolderView.Buckets | file_viewer_gui/ui_components.py:261 | there is one bucket per category |
| FolderView.EmptyTabs | file_viewer_gui/ui_components.py:252-258 | clearing leaves one empty tab per category |
| FolderView.TotalAppend | file_viewer_gui/ui_components.py:271-272 | appending one path to one bucket adds one to the total |
| FolderView.TotalEmpty | file_viewer_gui/ui_components.py:261-264 | the count starts at zero with empty buckets |
| FolderView.Categorize | file_viewer_gui/ui_components.py:260-278 | the listing fails exactly for a folder that cannot be listed; otherwise the buckets are `Buckets` of the listing, and `file_count` is their total size |
| FolderView.CategorizeStep | file_viewer_gui/ui_components.py:265-273 | one more entry grows only the bucket of its first match, by its path |
| FolderView.BucketMembers | file_viewer_gui/ui_components.py:265-273 | a path is in bucket `k` exactly when some listed entry is a regular file whose first match is `k` |
| FolderView.OnlyListedFiles | file_viewer_gui/ui_components.py:267-273 | the buckets hold only regular files whose extension is in their category's list |
| FolderView.ExactlyOneBucket | file_viewer_gui/ui_components.py:269-273 | a regular file with a listed extension is in the bucket of its first match and in no other |
| FolderView.BucketPrefix | file_viewer_gui/ui_components.py:265-271 | what is bucketed from a prefix of the listing stays at the front, so buckets keep listing order |
| FolderView.NonFilesSkipped | file_viewer_gui/ui_components.py:267 | entries that are not regular files are in no bucket |
| FolderView.UnlistedExtensions | file_viewer_gui/ui_components.py:16-22 | ".md" and ".mov" are in no list of the viewer, so no tab shows them |
| FolderView.View | file_viewer_gui/ui_components.py:250-285 | what the tabs show after displaying a folder: its buckets, or empty tabs when it cannot be listed; `Categorize`, `BucketMembers` and `ExactlyOneBucket` state what the buckets hold |
| FolderView.FileViewerApp.constructor | file_viewer_gui/ui_components.py:33-64 | default filters, empty tabs, and the remembered folder |
| FolderView.FileViewerApp.DisplayFolderContents | file_viewer_gui/ui_components.py:250-285 | the tabs show the folder's buckets, or nothing when listing fails; the filters and the folder are unchanged |
| FolderView.FileViewerApp.OnTimeFilterChanged | file_viewer_gui/ui_components.py:287-290 | the time filter is stored; the tabs show the remembered folder again, which the filter does not change, or stay as they were |
| FolderView.FileViewerApp.OnNameFilterChanged | file_viewer_gui/ui_components.py:292-295 | the name filter is stored; the tabs show the remembered folder again, which the filter does not change, or stay as they were |
| DragManager.LoadSettings | FileDragManager/main.py:467-480 | the result always holds `history_visible`; a loaded object keeps all its keys and values and gains `history_visible` = True when it lacks it; anything else gives `{history_visible: True}` |
| DragManager.SavedSettings | FileDragManager/main.py:483-493 | the object `save_settings` writes: the four options and the current `history_visible`, default True; `SavedSettingsReload` states how it reads back |
| DragManager.SavedSettingsReload | FileDragManager/main.py:483-493 | `save_settings` writes exactly five keys, loading them back gives the same object, and each key reads back as the value saved |
| DragManager.VisibilityPersists | FileDragManager/main.py:918-925 | the panel state saved by the toggle is the state the next start shows |
| DragManager.LoadHistory | FileDragManager/main.py:676-683 | `load_history`: what the history file holds, or an empty list when it is missing or unreadable; `SharedFileClobbers` and `NewestShownFirst` use it |
| DragManager.Reverse | FileDragManager/main.py:709 | the reverse has the same length, and element `i` is element `n-1-i` of the original |
| DragManager.RecentHistory | FileDragManager/main.py:708-709 | at most 50 entries, the newest first; nothing for a history that is not a list |
| DragManager.FileRows | FileDragManager/main.py:721-729 | one row per file of an entry, in order |
| DragManager.HistoryRowsHead | FileDragManager/main.py:711-719 | the panel starts with the time of the first entry shown |
| DragManager.NewestShownFirst | FileDragManager/main.py:685-713 | after `save_history`, the entry just saved is at the top of the panel |
| DragManager.SharedFileClobbers | FileDragManager/main.py:39-40 | after the settings are saved, the history read from the shared file shows as empty; after the history is saved, the settings read from it are the default |
| DragManager.Pairs | FileDragManager/main.py:892-894 | files and widget items are paired row by row |
| DragManager.Unselected | FileDragManager/main.py:861-866 | the rows left after removing the selected items; `UnselectedMembers`, `UnselectedTwice` and `UnselectedValid` state its properties |
| DragManager.UnselectedMembers | FileDragManager/main.py:861-866 | a row stays exactly when its item is not selected |
| DragManager.UnselectedNone | FileDragManager/main.py:861-866 | with nothing selected, every row stays |
| DragManager.UnselectedTwice | FileDragManager/main.py:863-866 | removing one selection, then another, is removing both at once |
| DragManager.UnselectedValid | FileDragManager/main.py:863-866 | what is left of valid rows is still valid |
| DragManager.RemoveAt | FileDragManager/main.py:864-866 | deleting row `k` removes exactly the row of its item, when the items are distinct |
| DragManager.PairsDelete | FileDragManager/main.py:865-866 | deleting the same index from the files and from the widget deletes that row of their pairing |
| DragManager.StillShown | FileDragManager/main.py:863-864 | each selected item is still in the widget when the loop reaches it |
| DragManager.DeleteSelected | FileDragManager/main.py:863-866 | deleting the current row of the next selected item leaves the rows of the items not yet removed |
| DragManager.RowOf | FileDragManager/main.py:864 | `row(item)` is a position where the widget shows the item |
| DragManager.SupportedIffCategorized | FileDragManager/main.py:881-891 | a dropped file is accepted exactly when the engine would give it a named category |
| DragManager.NewItems | FileDragManager/main.py:893-894 | one new widget item per accepted file |
| DragManager.DropAccept | FileDragManager/main.py:891-896 | an accepted path grows the files, the widget and the identities by one valid row |
| DragManager.DropOther | FileDragManager/main.py:879-898 | a path that is not accepted adds only a warning, and only when it is an existing file |
| DragManager.AppendRow | FileDragManager/main.py:892-894 | appending a file and an item showing its base name keeps the rows valid |
| DragManager.Accepted | FileDragManager/main.py:879-896 | the `(path, None)` entries appended by `dropEvent`, in drop order; `AcceptedMembers` and `NothingSupported` state which they are |
| DragManager.Rejected | FileDragManager/main.py:897-898 | the dropped files warned about; `RejectedMembers` and `AcceptedOrRejected` state which they are |
| DragManager.AcceptedMembers | FileDragManager/main.py:879-896 | what is appended is exactly the existing dropped files with a supported extension, each as `(path, None)` |
| DragManager.NothingSupported | FileDragManager/main.py:879-898 | a drop of only unsupported or missing files leaves `files` unchanged |
| DragManager.AcceptedOrRejected | FileDragManager/main.py:891-898 | no dropped file is both appended and warned about |
| DragManager.RejectedMembers | FileDragManager/main.py:897-898 | a path is warned about exactly when it was dropped, is an existing file, and is unsupported |
| DragManager.SwitchText | FileDragManager/main.py:528-529 | the text of a switch button, `name: 开启` or `name: 关闭`; `SwitchTextShowsState` states that it tells the state |
| DragManager.FileManagerApp.ImageRenameButtonText | FileDragManager/main.py:528-529 | the rename button shows "图片重命名" and whether renaming is on |
| DragManager.FileManagerApp.CategoryButtonText | FileDragManager/main.py:568-569 | the categorise button shows "分类设置" and whether categorising is on |
| DragManager.SwitchTextShowsState | FileDragManager/main.py:528-529 | the button texts for on and off differ, and both start with the setting's name |
| DragManager.FileManagerApp.constructor | FileDragManager/main.py:38-57 | settings loaded, the options read from them with their defaults, no pending files, execute disabled, the history loaded, its panel built, and the dock shown according to `history_visible` |
| DragManager.FileManagerApp.SaveSettings | FileDragManager/main.py:483-495 | the shared file holds the five saved settings; nothing else changes |
| DragManager.FileManagerApp.ToggleHistoryPanel | FileDragManager/main.py:918-925 | the panel flips, `history_visible` records the new state, and the settings are saved |
| DragManager.FileManagerApp.ClearFileList | FileDragManager/main.py:752-755 | no pending files, an empty widget, execute disabled |
| DragManager.FileManagerApp.DropEvent | FileDragManager/main.py:878-898 | the accepted files are appended with their items, in drop order; execute becomes enabled when something was appended; exactly the rejected files are warned about; the list stays aligned with the widget |
| DragManager.FileManagerApp.DropLoop | FileDragManager/main.py:879-898 | the loop appends exactly the accepted files with one fresh item each, and collects exactly the rejected ones |
| DragManager.FileManagerApp.RemoveSelectedFiles | FileDragManager/main.py:861-870 | exactly the selected rows are removed, each once, from the files and the widget alike; the rest keep their order and alignment; execute is disabled when nothing is left |
| DragManager.FileManagerApp.RemoveLoop | FileDragManager/main.py:862-866 | the loop removes exactly the rows of the selected items |
| DragManager.FileManagerApp.LoadHistoryToList | FileDragManager/main.py:704-729 | the panel shows the rows of the recent entries; the history itself is unchanged |
| DragManager.FileManagerApp.BuildRows | FileDragManager/main.py:711-729 | the loop builds the rows of every recent entry, in order |
| DragManager.FileManagerApp.AddEntryRows | FileDragManager/main.py:712-729 | one entry adds its time label, then one row per file |
| DragManager.FileManagerApp.SaveHistory | FileDragManager/main.py:685-702 | a history that is not a list is reset, exactly one entry is appended at the end, the shared file holds the history, and the panel is rebuilt |
| DragManager.FileManagerApp.HandleTransferComplete | FileDragManager/main.py:828-843 | the history gains the run's entry, then the pending list is cleared; the options, the item counter and the settings are unchanged |

## Left out

- Widget construction, styles, themes, the toolbar, the dock and status bar and all dialogs, including all of FileDragManager/dialogs.py and the result dialog of `handle_transfer_complete`. They are UI with no behaviour to state.
- QThread, the signal machinery and the modal progress dialog. The signals become a returned trace. The cancel button, which does not stop the worker, is concurrency and UI.
- Logging, stdout redirection and `print`, for the same reason.
- `shutil.move` and `os.makedirs` are oracles: a fault table says which calls raise, and a move with a missing source raises. Real overwrite and cross-device behaviour depends on the platform.
- Paths follow POSIX rules ('/' only). Windows separators and drive letters are not modelled.
- Text.Lower: lower-cases ASCII letters only. Python's `lower()` also folds other scripts, but the extensions in the tables are ASCII.
- Transfer.Percent: the percentage is `(idx+1)*100 // total` on integers. The source computes `int((idx+1)/total*100)` in floating point, which can be one less, for example 28 rather than 29 for file 29 of 100. Only the bounds and the final 100 are claimed.
- Transfer.ImageName: the millisecond pattern calls `datetime.now()` twice, once for the fraction and once for the timestamp. The model takes both from one `Instant`. The clock and `strftime` formatting are inputs (`clock: nat -> Instant`).
- DragManager.FileManagerApp.SaveHistory: `now` is a parameter, standing for `datetime.now().strftime(...)`.
- JSON I/O is the abstract field `stored`, the parsed content of the one shared file, or `None` when it is missing or unreadable. Write failures, which the source catches and prints, are not modelled, and neither are files holding JSON other than a history list or a settings object.
- Settings values are strings or booleans only. The source writes nothing else, but a hand-edited file could hold numbers or `null`.
- DragManager.FileManagerApp.DropEvent: the dropped URLs arrive as local paths, and `os.path.isfile` is a set of regular files.
  - The warning dialog for each rejected file is the returned list `warned`.
  - The relative import `from .utils import FILE_CATEGORIES` inside `dropEvent` is taken to give the table of FileDragManager/utils.py.
- DragManager.FileManagerApp.RemoveSelectedFiles: `selectedItems()` is a list of distinct item identities, all shown in the widget.
  - Reordering the list widget by internal drag and drop, which would break its alignment with `files`, is not modelled.
- Not modelled because they are dialogs or lie outside the modelled core:
  - `select_folder`, `clear_target_dir_memory`, the dialogs behind the two switch buttons, and the wiring of `execute_transfer` to the thread;
  - `paste_screenshot` and `load_files_from_folder`. Each appends `(path, None)` entries to `files` and enables execute (FileDragManager/main.py:758-784 and 901-912), like `dropEvent`, but they read the clipboard or a directory and are outside the modelled core.
- For the folder view, the directory listing and `os.path.isfile` are inputs, with `os.listdir` order taken as given.
  - The error message box of a failed listing is not modelled; the tabs are left cleared.
  - `display_file` is modelled only for its thumbnail condition, and each tab holds the file paths it would show.
- file_viewer_gui/config.py (the remembered folder is a constructor parameter), the open/delete/clipboard-error paths of file_viewer_gui/file_operations.py, and the entry points file_viewer_gui/main.py and integrated_app/main.py are not part of this model.
- setup.py (packaging) and the Word Processing editor are not part of this model.
