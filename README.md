# SublimeLint core, modelled in Dafny

SublimeLint is a Sublime Text plugin that lints the views being edited. It
runs in the background, using linter modules discovered on disk. The plugin
keeps three process-wide dictionaries:

- `LINTERS` maps a language key to a loaded linter module;
- `QUEUE` maps a view id to a view waiting to be linted;
- `ERRORS` maps a view id to the messages of each row of that view.

Each view also carries state:

- three mark groups: `lint-underline`, `lint-outlines` and `user_notes`;
- a `Linter` status slot;
- a settings map.

The `Loader` object fills `LINTERS`. It derives a module name from each
`*.py` path under `sublimelint/modules`, skips `__init__`, imports
`sublimelint.modules.<name>` and registers the module under its `language`
attribute, so the last module loaded for a language wins. It also reloads
a module whose qualified name lies under the package.

Files:

- `base.dfy` holds `Option`, and `Outcome`, which stands for a call that
  returns a value or raises.
- `strings.dfy` holds the Python string operations used: `in`,
  `startswith`, `replace`, `rstrip` and `join`.
- `linters.dfy` holds the module record, the `LINTERS` table (its entries
  and its iteration order), registration, `select_linter`, and the lookup
  `on_post_save` makes.
- `loader.dfy` holds the `Loader` class. Its `linters` field is the
  registry and `cwd` is the process working directory. Beside the class are
  the pure name functions and the functions `load_module`, `load_all` and
  `reload_module` are proved against.
- `plugin.dfy` holds the `View` class and the `Plugin` class, whose fields
  are `QUEUE`, `ERRORS` and the shared loader. It also holds the editor
  events and the four setting commands.

## Model

| member | source | states |
|---|---|---|
| `Strings.FindFrom` | sublimelint_plugin.py:97 | the index found is the first occurrence at or after the start; none exactly when there is no occurrence |
| `Strings.Contains` | sublimelint_plugin.py:97 | `k in syntax` holds exactly when `k` occurs somewhere in `syntax` |
| `Strings.ReplaceChar` | sublimelint/loader.py:15 | the length is kept and no `/` remains after every `/` becomes `.` |
| `Strings.ReplaceFirst` | sublimelint/loader.py:68 | without an occurrence the string is unchanged; with a leading occurrence only that prefix is replaced |
| `Strings.RStrip` | sublimelint/loader.py:45 | the result is a prefix that does not end in a stripped character, and only stripped characters were removed |
| `Strings.RStripIdempotent` | sublimelint/loader.py:45 | stripping `c`/`o` a second time changes nothing |
| `Strings.Join` | sublimelint_plugin.py:252 | `'; '.join` has the summed length plus the separators, starts with the first message and ends with the last |
| `Linters.Put` | sublimelint/loader.py:49 | `linters[language] = mod` maps the key to the module, adds only that key and keeps every other entry |
| `Linters.Register` | sublimelint/loader.py:47-54 | a module without `language` leaves the registry unchanged; otherwise it replaces any earlier entry under its language and touches no other key |
| `Linters.FirstIndexIsFirst` | sublimelint_plugin.py:96-99 | the `for ... if ...: return` loop finds the first key satisfying the test, and none exactly when no key does |
| `Linters.SelectLinterMatches` | sublimelint_plugin.py:93-99 | `select_linter` returns a registered module whose key occurs in the syntax, and returns None exactly when no registered key occurs in it |
| `Linters.SelectLinterFirst` | sublimelint_plugin.py:96-98 | of several matching keys, the one iteration visits first wins |
| `Linters.SelectUnique` | sublimelint_plugin.py:93-99 | when exactly one key matches, the result does not depend on iteration order |
| `Linters.SavedModuleMatches` | sublimelint_plugin.py:241-245 | the module found by `on_post_save` is a registered module whose `__file__` equals the saved file name; none exactly when no registered module has that file |
| `ModuleLoader.ModPathOfBasePath` | sublimelint/loader.py:13-15 | `modpath` is `'sublimelint.modules'` |
| `ModuleLoader.BasenameIsLastComponent` | sublimelint/loader.py:22 | the base name is a suffix of the path without `/`, preceded by `/` unless it is the whole path |
| `ModuleLoader.ModuleNameIsFirstPart` | sublimelint/loader.py:23 | the module name is the prefix before the first `.`, with no `.` in it |
| `ModuleLoader.NameOfPathIsBare` | sublimelint/loader.py:22-23 | a derived module name contains neither `/` nor `.` |
| `ModuleLoader.LoadedNames` | sublimelint/loader.py:21-26 | at most one name is passed on per file |
| `ModuleLoader.LoadedNamesMembers` | sublimelint/loader.py:21-26 | the names passed to `load_module` are exactly the derived names of the files that are not in `ignore`, and each is bare |
| `ModuleLoader.LoadOne` | sublimelint/loader.py:28-57 | `load_module` raises exactly when the import raises; a raising import or a module without `language` leaves the registry as it was |
| `ModuleLoader.LoadOneRegisters` | sublimelint/loader.py:30-49 | a module with a language is registered under it with `__name__` set to `modpath + '.' + name` and `__file__` rstripped, and every other entry is kept |
| `ModuleLoader.LoadOneKeys` | sublimelint/loader.py:47-54 | a successful load adds exactly the module's language, if it declares one, to the keys |
| `ModuleLoader.LoadNamesKeys` | sublimelint/loader.py:19-26 | when every import succeeds, `load_all` raises nothing and adds exactly the declared languages |
| `ModuleLoader.LoadOneKeeps` | sublimelint/loader.py:47-54 | loading a module of another language, or of none, keeps an existing entry |
| `ModuleLoader.LoadNamesLastWins` | sublimelint/loader.py:47-54 | the last module loaded for a language is the one registered under it, also when a later import raises and stops the loading |
| `ModuleLoader.LoadNamesStopped` | sublimelint/loader.py:36 | once an import has raised, no later module is loaded |
| `ModuleLoader.LoadFilesIsLoadNames` | sublimelint/loader.py:21-26 | walking the files with the skip rule is loading the non-ignored derived names in enumeration order |
| `ModuleLoader.LoadFilesStopped` | sublimelint/loader.py:26 | once loading has raised, the remaining files are never loaded |
| `ModuleLoader.MissingLanguageIsIsolated` | sublimelint/loader.py:51-52 | a module without `language` between two others is skipped; the registry holds exactly the other two languages |
| `ModuleLoader.ImportErrorStopsLoading` | sublimelint/loader.py:36 | an import error in the second of three modules escapes; only the first is registered and the third is never loaded |
| `ModuleLoader.ReloadTarget` | sublimelint/loader.py:64-68 | no target exactly when the name does not start with `modpath`; under `modpath + '.'` the target is the rest of the name |
| `ModuleLoader.ReloadRoundTrip` | sublimelint/loader.py:68-69 | stripping the package from `modpath + '.' + n` gives `n` back, so `load_module` rebuilds the original `__name__` |
| `ModuleLoader.LooseGuard` | sublimelint/loader.py:65 | a name that only extends `modpath` without the dot passes the guard, comes back unchanged, and does not rebuild to itself |
| `ModuleLoader.ReloadResult` | sublimelint/loader.py:59-69 | a name outside `modpath` leaves the registry unchanged and raises nothing |
| `ModuleLoader.QualifiedNameUnder` | sublimelint/loader.py:30 | every qualified name starts with `modpath + '.'` |
| `ModuleLoader.LoadOneKeepsNamesUnder` | sublimelint/loader.py:30-49 | after `load_module` every registered module still has a qualified name under the package |
| `ModuleLoader.LoadNamesKeepsNamesUnder` | sublimelint/loader.py:19-26 | after `load_all` every registered module has a qualified name under the package |
| `ModuleLoader.Loader.constructor` | sublimelint/loader.py:10-17 | the fields are set as written (`ignore` is the one-element tuple) and the registry is what `load_all` leaves from the empty one |
| `ModuleLoader.Loader.LoadModule` | sublimelint/loader.py:28-57 | the registry becomes `LoadOne`'s; the working directory is restored when the import succeeds and is left at `basedir` when it raises |
| `ModuleLoader.Loader.LoadAll` | sublimelint/loader.py:19-26 | the loop leaves exactly the registry and the raised flag of `LoadFiles`; the working directory is restored unless an import raised |
| `ModuleLoader.Loader.ReloadModule` | sublimelint/loader.py:59-69 | the registry becomes `ReloadResult`'s; the working directory is restored unless the import raised, when it is left at `basedir`; nothing changes for a name outside `modpath` |
| `LintPlugin.FileNameFor` | sublimelint_plugin.py:65-68 | the linter gets the view's file name when it has a non-empty one and `'untitled'` otherwise, never an empty name |
| `LintPlugin.Outlines` | sublimelint_plugin.py:83 | one full-line region per reported row |
| `LintPlugin.NotesOutcome` | sublimelint_plugin.py:106 | a missing `"user notes"` key raises (`KeyError`) |
| `LintPlugin.StatusFor` | sublimelint_plugin.py:250-254 | a status is shown exactly when the view's diagnostics have the cursor's row; a single message is shown as it is, and the status starts with the row's first message |
| `LintPlugin.ReplaceNotMerge` | sublimelint_plugin.py:70 | after `ERRORS[vid]` is replaced, each row's status depends on the new map alone and other views' statuses are unchanged |
| `LintPlugin.EraseLintMarks` | sublimelint_plugin.py:87-90 | both lint mark groups are empty |
| `LintPlugin.AddLintMarks` | sublimelint_plugin.py:74-85 | the underline group is exactly `underlines` and the outline group exactly the full lines of `lines`; nothing from an earlier run remains |
| `LintPlugin.ResetLinter` | sublimelint_plugin.py:200-207 | the marks are erased; `sublimelint` is set to True only when it was absent or None, and the settings are otherwise unchanged |
| `LintPlugin.LinterOn` | sublimelint_plugin.py:210-214 | `sublimelint` becomes True and nothing else changes |
| `LintPlugin.LinterOff` | sublimelint_plugin.py:218-222 | `sublimelint` becomes False and nothing else changes |
| `LintPlugin.PostSaveUnrelatedFile` | sublimelint_plugin.py:241-245 | saving a file no registered module comes from reloads nothing |
| `LintPlugin.PostSaveReloadsSavedModule` | sublimelint_plugin.py:241-244 | saving a registered module's source reloads that very module under its own qualified name |
| `LintPlugin.Plugin.constructor` | sublimelint_plugin.py:19-23 | `QUEUE` and `ERRORS` start empty and `LINTERS` is what the loader loaded |
| `LintPlugin.Plugin.RunLint` | sublimelint_plugin.py:61-71 | on return `ERRORS[vid]` is replaced by the linter's messages, not merged, and the marks are redrawn; other views' entries are kept; when the linter raises, nothing changes |
| `LintPlugin.Plugin.HighlightNotes` | sublimelint_plugin.py:101-109 | the notes group holds what the "user notes" module found, or is empty when the lookup or the call raised |
| `LintPlugin.Plugin.Run` | sublimelint_plugin.py:53-59 | it lints only when `sublimelint` is truthy and there is a linter, and highlights notes only when `sublimelint.notes` is truthy and the linter did not raise |
| `LintPlugin.Plugin.QueueLinter` | sublimelint_plugin.py:111-117 | with no matching linter the marks are erased and `QUEUE` is unchanged; otherwise `QUEUE[vid] = view` and the marks are kept |
| `LintPlugin.Plugin.QueueTwice` | sublimelint_plugin.py:111-117 | enqueueing the same view twice leaves the queue that enqueueing it once leaves |
| `LintPlugin.Plugin.DrainPass` | sublimelint_plugin.py:126-138 | exactly the snapshotted ids leave `QUEUE`, each visited once; ids not in the snapshot stay |
| `LintPlugin.Plugin.OnModified` | sublimelint_plugin.py:231-233 | `on_modified` is `queue_linter` |
| `LintPlugin.Plugin.OnLoad` | sublimelint_plugin.py:235-238 | nothing happens without a matching linter; otherwise `run` with the selected linter: lint when `sublimelint` is truthy, then notes when `sublimelint.notes` is truthy and the linter did not raise, with every mark group and `ERRORS` stated in each case |
| `LintPlugin.Plugin.ReloadSaved` | sublimelint_plugin.py:241-245 | the registry becomes what reloading the saved module, if any, leaves; the loader's working directory is restored unless the import raised, when it is left at `basedir` |
| `LintPlugin.Plugin.OnPostSave` | sublimelint_plugin.py:240-246 | the saved module is reloaded first, with the working directory restored unless the import raised; an escaping exception leaves the queue and marks alone; otherwise the view is queued against the updated registry |
| `LintPlugin.Plugin.OnSelectionModified` | sublimelint_plugin.py:248-254 | the status is the row's joined messages when `ERRORS` has them and is cleared otherwise; `ERRORS` is only read |
| `LintPlugin.Plugin.RunLinter` | sublimelint_plugin.py:188-197 | a truthy `sublimelint` is set to None, and the named linter, if registered, is run once as `run_lint` |

## Left out

- The background thread is left out. So are the sleep loop, the start-once guard and `sublime.set_timeout` (sublimelint_plugin.py:120-124,140-145). One pass of the drain loop is modelled as a sequential method.
- Which view a deferred `_update_view` callback lints is left out. The closure captures `_view` late, so the model does not claim that every queued view gets linted.
- Region geometry is left out: `full_line`, `text_point`, `rowcol`, scopes and drawing flags. A full line is the opaque region `WholeLine(row)`, and the cursor row is a field of the view.
- The sublime API is left out. A view is a record of its id, text, syntax, file name, settings, mark groups, status and cursor row. The `syntax` setting is a field of its own.
- Python's import machinery is left out: `glob`, `__import__`, `reload`, `sys.modules`, `os.getcwd`, `os.chdir` and `os.path.abspath`. In their place:
  - the globbed file list is a parameter;
  - the import-then-reload of a qualified name is an `Importer` function that returns a module or raises;
  - the working directory is a field of the loader;
  - `abspath` is taken to be the identity on the file the importer reports.
- ModuleLoader.Loader.constructor: if `load_all` raises, the model still builds the loader from the registry filled so far. In Python the exception would abort the plugin's import.
- The help system and the `Lint` command are left out (sublimelint_plugin.py:31-51,147-186), as are all `print` logging and the unrecognised-linter message.
- Linter internals are left out. A linter's `run` and the "user notes" module's `run` are uninterpreted functions of the text (and file name) that return a result or raise. What a linter reads from the view object itself is not modelled.
- Dictionary iteration order is left out. Python 2 does not define the iteration order of `LINTERS`, so the model uses insertion order. Every selection property except `SelectLinterFirst` is stated without reference to order.
- View ids are natural numbers.
- Load failures are not isolated per module, and the working directory is not restored on every exit path. The import at sublimelint/loader.py:36 sits outside the `try`. So an import error escapes `load_module`, stops `load_all`, and skips the `os.chdir(pushd)` at line 57. Only a missing `language` (or an error while registering) is caught. `ImportErrorStopsLoading` and `MissingLanguageIsIsolated` state the two cases.
- Modules are values, so the aliasing that `reload` creates is not captured. Python 2's `reload` re-executes the code inside the same module object, and line 45 then sets that object's `__file__` in place (sublimelint/loader.py:42,45). Every `LINTERS` entry holding the module therefore sees the reloaded code. In the model, an entry under a language the reloaded module no longer declares keeps the earlier record, with its earlier `lint` and `file` (see `LoadOneKeeps`).
