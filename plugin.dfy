/**
 * The plugin's orchestration state: the view queue, the per-view
 * diagnostics, the marks drawn on each view, and the commands and editor
 * events that change them.
 */
module LintPlugin {
  import opened Base
  import opened Strings
  import opened Linters
  import opened ModuleLoader

  /** The registry key of the module that highlights user notes. */
  const NotesKey: string := "user notes"
  /** The file name passed to a linter for a view that was never saved. */
  const Untitled: string := "untitled"
  /** What separates the messages of one line in the status bar. */
  const StatusSeparator: string := "; "
  /** The view setting that enables background linting. */
  const EnabledSetting: string := "sublimelint"
  /** The view setting that enables the highlighting of user notes. */
  const NotesSetting: string := "sublimelint.notes"

  /** A view setting's value: Python's `None`, a boolean, or some other (string) value. */
  datatype Value = Null | Flag(on: bool) | Text(chars: string)

  /** Python truthiness of a setting's value. */
  predicate Truthy(v: Value) {
    match v
    case Null => false
    case Flag(b) => b
    case Text(s) => s != ""
  }

  /** `view.settings().get(key)`: `None` for an absent key. */
  function Get(settings: map<string, Value>, key: string): Value {
    if key in settings then settings[key] else Null
  }

  /**
   * An editor view as the plugin sees it: its id, text, syntax, file name
   * and settings, the three mark groups (`lint-underline`,
   * `lint-outlines`, `user_notes`), the `Linter` status slot, and the row of
   * the first selection's end.
   */
  class View {
    const id: nat
    var text: string
    var syntax: string
    var fileName: Option<string>
    var settings: map<string, Value>
    var underline: seq<Region>
    var outlines: seq<Region>
    var notes: seq<Region>
    var status: Option<string>
    var cursorLine: int

    constructor (id: nat, text: string, syntax: string, fileName: Option<string>, settings: map<string, Value>, cursorLine: int)
      ensures this.id == id && this.text == text && this.syntax == syntax && this.fileName == fileName
      ensures this.settings == settings && this.cursorLine == cursorLine
      ensures underline == [] && outlines == [] && notes == [] && status == None
    {
      this.id := id;
      this.text := text;
      this.syntax := syntax;
      this.fileName := fileName;
      this.settings := settings;
      this.cursorLine := cursorLine;
      underline, outlines, notes, status := [], [], [], None;
    }
  }

  /** The file name `run_lint` passes to the linter: the view's own when it has a non-empty one, `'untitled'` otherwise. */
  function FileNameFor(fileName: Option<string>): (r: string)
    ensures r != ""
    ensures fileName.Some? && fileName.value != "" ==> r == fileName.value
    ensures r == Untitled || fileName == Some(r)
  {
    if fileName.Some? && fileName.value != "" then fileName.value else Untitled
  }

  /** The regions `add_lint_marks` outlines: the full line of each reported row, in order. */
  function Outlines(lines: seq<int>): (r: seq<Region>)
    ensures |r| == |lines|
  {
    seq(|lines|, i requires 0 <= i < |lines| => WholeLine(lines[i]))
  }

  /** What a module's `run(text, view, filename)` gives for the view's current text and file name. */
  ghost function LintOf(m: Module, view: View): Outcome<LintResult>
    reads view
  {
    m.lint(view.text, FileNameFor(view.fileName))
  }

  /** `LINTERS["user notes"].run(view, text)`; a missing key raises `KeyError`. */
  function NotesOutcome(t: Table, text: string): (r: Outcome<seq<Region>>)
    ensures NotesKey !in t.entries ==> r.Raised?
  {
    if NotesKey in t.entries then t.entries[NotesKey].notes(text) else Raised
  }

  /** The `user_notes` group after `highlight_notes`: the regions found, or nothing when the lookup or the call raised. */
  function NotesShown(t: Table, text: string): seq<Region> {
    match NotesOutcome(t, text)
    case Done(regions) => regions
    case Raised => []
  }

  /** The diagnostics store `ERRORS`: view id, then row, then that row's messages. */
  type Diagnostics = map<nat, map<int, seq<string>>>

  /**
   * The status `on_selection_modified` shows: the row's messages joined by
   * `'; '` when the view has diagnostics for the cursor's row, and nothing
   * otherwise.
   */
  function StatusFor(errors: Diagnostics, vid: nat, row: int): (r: Option<string>)
    ensures r.Some? <==> vid in errors && row in errors[vid]
    ensures r.Some? && |errors[vid][row]| == 1 ==> r.value == errors[vid][row][0]
    ensures r.Some? && errors[vid][row] != [] ==> StartsWith(r.value, errors[vid][row][0])
  {
    if vid in errors && row in errors[vid] then Some(Join(StatusSeparator, errors[vid][row])) else None
  }

  /**
   * Replace, not merge: once a view's diagnostics are replaced, the status
   * of each of its rows depends on the new map alone, and no other view's
   * status changes.
   */
  lemma ReplaceNotMerge(errors: Diagnostics, vid: nat, latest: map<int, seq<string>>, other: nat, row: int)
    ensures StatusFor(errors[vid := latest], vid, row)
      == if row in latest then Some(Join(StatusSeparator, latest[row])) else None
    ensures other != vid ==> StatusFor(errors[vid := latest], other, row) == StatusFor(errors, other, row)
  {
  }

  /** `erase_lint_marks`: empties the underline and outline groups. */
  method EraseLintMarks(view: View)
    modifies view`underline, view`outlines
    ensures view.underline == [] && view.outlines == []
  {
    view.underline := [];
    view.outlines := [];
  }

  /**
   * `add_lint_marks`: erase both groups, then add each only when it has
   * something to show. Nothing from an earlier run remains: the new groups
   * are determined by the arguments alone.
   */
  method AddLintMarks(view: View, underlines: seq<Region>, lines: seq<int>)
    modifies view`underline, view`outlines
    ensures view.underline == underlines
    ensures view.outlines == Outlines(lines)
    ensures forall i :: 0 <= i < |lines| ==> view.outlines[i] == WholeLine(lines[i])
  {
    EraseLintMarks(view);
    if underlines != [] {
      view.underline := underlines;
    }
    if lines != [] {
      view.outlines := Outlines(lines);
    }
  }

  /** The `reset_linter` command: erase the lint marks and enable background linting if it was never set. */
  method ResetLinter(view: View)
    modifies view`underline, view`outlines, view`settings
    ensures view.underline == [] && view.outlines == []
    ensures Get(old(view.settings), EnabledSetting).Null? ==> view.settings == old(view.settings)[EnabledSetting := Flag(true)]
    ensures !Get(old(view.settings), EnabledSetting).Null? ==> view.settings == old(view.settings)
  {
    EraseLintMarks(view);
    if Get(view.settings, EnabledSetting).Null? {
      view.settings := view.settings[EnabledSetting := Flag(true)];
    }
  }

  /** The `linter_on` command. */
  method LinterOn(view: View)
    modifies view`settings
    ensures view.settings == old(view.settings)[EnabledSetting := Flag(true)]
    ensures Truthy(Get(view.settings, EnabledSetting))
  {
    view.settings := view.settings[EnabledSetting := Flag(true)];
  }

  /** The `linter_off` command. */
  method LinterOff(view: View)
    modifies view`settings
    ensures view.settings == old(view.settings)[EnabledSetting := Flag(false)]
    ensures !Truthy(Get(view.settings, EnabledSetting))
  {
    view.settings := view.settings[EnabledSetting := Flag(false)];
  }

  /** What `on_post_save` does to the registry: reload the module whose source file was saved, if there is one. */
  function PostSaveReload(t: Table, modpath: string, fileName: Option<string>, importer: Importer): (r: LoadResult)
    requires t.Valid()
    ensures r.table.Valid()
  {
    match SavedModule(t, fileName)
    case None => LoadResult(t, false)
    case Some(m) => ReloadResult(t, modpath, m.name, importer)
  }

  /** Saving a file that no registered module comes from leaves the registry as it was. */
  lemma PostSaveUnrelatedFile(t: Table, modpath: string, fileName: Option<string>, importer: Importer)
    requires t.Valid()
    requires forall k :: k in t.entries ==> Some(t.entries[k].file) != fileName
    ensures PostSaveReload(t, modpath, fileName, importer) == LoadResult(t, false)
  {
    SavedModuleMatches(t, fileName);
  }

  /**
   * Saving a registered module's source reloads that very module: the name
   * left after stripping the package path rebuilds its qualified name.
   */
  lemma PostSaveReloadsSavedModule(t: Table, modpath: string, fileName: Option<string>, importer: Importer, k: string)
    requires t.Valid() && NamesUnder(t, modpath)
    requires k in t.entries && Some(t.entries[k].file) == fileName
    ensures SavedModule(t, fileName).Some?
    ensures var m := SavedModule(t, fileName).value;
      && ReloadTarget(modpath, m.name).Some?
      && QualifiedName(modpath, ReloadTarget(modpath, m.name).value) == m.name
      && PostSaveReload(t, modpath, fileName, importer) == LoadOne(t, modpath, ReloadTarget(modpath, m.name).value, importer)
  {
    SavedModuleMatches(t, fileName);
    var m := SavedModule(t, fileName).value;
    var q := m.name;
    assert StartsWith(q, modpath + ".");
    assert StartsWith(q, modpath) by { assert q[..|modpath|] == (modpath + ".")[..|modpath|]; }
    assert QualifiedName(modpath, q[|modpath| + 1..]) == q by { assert q == q[..|modpath| + 1] + q[|modpath| + 1..]; }
  }

  /**
   * The plugin module's global state. `loader` is `MOD_LOAD`; its `linters`
   * table is `LINTERS`, the dictionary both share. `queue` is `QUEUE` and
   * `errors` is `ERRORS`.
   */
  class Plugin {
    const loader: Loader
    var queue: map<nat, View>
    var errors: Diagnostics

    ghost predicate Valid()
      reads this, loader
    {
      loader.Valid()
    }

    /** Module start-up: empty queue and diagnostics, and a loader that has loaded every module found. */
    constructor (basedir: string, files: seq<string>, importer: Importer)
      ensures Valid() && fresh(loader)
      ensures queue == map[] && errors == map[]
      ensures loader.linters == LoadNames(EmptyTable, "sublimelint.modules", LoadedNames(files, Ignored), importer).table
    {
      loader := new Loader(basedir, files, importer);
      queue := map[];
      errors := map[];
    }

    /**
     * `run_lint`: run the linter on the view's text and file name; on return
     * replace the view's diagnostics wholesale and redraw its marks. When the
     * linter raises nothing has been assigned yet, so nothing changes.
     */
    method RunLint(linter: Module, view: View) returns (raised: bool)
      modifies this`errors, view`underline, view`outlines
      ensures raised == LintOf(linter, view).Raised?
      ensures raised ==> errors == old(errors) && view.underline == old(view.underline) && view.outlines == old(view.outlines)
      ensures !raised ==>
        var res := LintOf(linter, view).value;
        && errors == old(errors)[view.id := res.messages]
        && view.underline == res.underlines
        && view.outlines == Outlines(res.lines)
    {
      var vid := view.id;
      var text := view.text;
      var filename := FileNameFor(view.fileName);
      var outcome := linter.lint(text, filename);
      if outcome.Raised? {
        return true;
      }
      errors := errors[vid := outcome.value.messages];
      AddLintMarks(view, outcome.value.underlines, outcome.value.lines);
      raised := false;
    }

    /** `highlight_notes`: erase the notes group, then show what the "user notes" module finds, if anything. */
    method HighlightNotes(view: View) returns (raised: bool)
      requires Valid()
      modifies view`notes
      ensures raised == NotesOutcome(loader.linters, view.text).Raised?
      ensures view.notes == NotesShown(loader.linters, view.text)
    {
      view.notes := [];
      var text := view.text;
      if NotesKey !in loader.linters.entries {
        return true;
      }
      var regions := loader.linters.entries[NotesKey].notes(text);
      if regions.Raised? {
        return true;
      }
      if regions.value != [] {
        view.notes := regions.value;
      }
      raised := false;
    }

    /**
     * `run`: lint when the view's `sublimelint` setting is truthy and there
     * is a linter; then highlight notes when `sublimelint.notes` is truthy.
     * The two gates are independent, but an exception from the linter ends
     * the call before the notes step.
     */
    method Run(linter: Option<Module>, view: View) returns (raised: bool)
      requires Valid()
      modifies this`errors, view`underline, view`outlines, view`notes
      ensures
        var lints := Truthy(Get(view.settings, EnabledSetting)) && linter.Some?;
        var lintRaised := lints && LintOf(linter.value, view).Raised?;
        var notesRun := !lintRaised && Truthy(Get(view.settings, NotesSetting));
        && (lints && !lintRaised ==>
              var res := LintOf(linter.value, view).value;
              errors == old(errors)[view.id := res.messages] && view.underline == res.underlines && view.outlines == Outlines(res.lines))
        && (!lints || lintRaised ==>
              errors == old(errors) && view.underline == old(view.underline) && view.outlines == old(view.outlines))
        && (notesRun ==> view.notes == NotesShown(loader.linters, view.text) && raised == NotesOutcome(loader.linters, view.text).Raised?)
        && (!notesRun ==> view.notes == old(view.notes) && raised == lintRaised)
    {
      raised := false;
      if Truthy(Get(view.settings, EnabledSetting)) {
        if linter.Some? {
          raised := RunLint(linter.value, view);
          if raised {
            return;
          }
        }
      }
      if Truthy(Get(view.settings, NotesSetting)) {
        raised := HighlightNotes(view);
      }
    }

    /**
     * `queue_linter`: with no matching linter, erase the lint marks (the
     * file type may have changed) and leave the queue alone; otherwise put
     * the view in the queue under its id, which at most replaces the entry
     * already there.
     */
    method QueueLinter(view: View)
      requires Valid()
      modifies this`queue, view`underline, view`outlines
      ensures SelectLinter(loader.linters, view.syntax).None? ==>
        queue == old(queue) && view.underline == [] && view.outlines == []
      ensures SelectLinter(loader.linters, view.syntax).Some? ==>
        && queue == old(queue)[view.id := view]
        && view.underline == old(view.underline) && view.outlines == old(view.outlines)
      ensures queue.Keys <= old(queue.Keys) + {view.id}
    {
      if SelectLinter(loader.linters, view.syntax).None? {
        EraseLintMarks(view);
        return;
      }
      queue := queue[view.id := view];
    }

    /** Enqueueing the same view twice leaves the queue as enqueueing it once does. */
    method QueueTwice(view: View)
      requires Valid()
      modifies this`queue, view`underline, view`outlines
      ensures SelectLinter(loader.linters, view.syntax).Some? ==> queue == old(queue)[view.id := view]
      ensures SelectLinter(loader.linters, view.syntax).None? ==> queue == old(queue)
    {
      QueueLinter(view);
      QueueLinter(view);
    }

    /**
     * One pass of the background loop over `snapshot`, the copy
     * `dict(QUEUE)` taken at its start: each snapshotted id is read from the
     * live queue (a lint callback is deferred for it) and deleted. Exactly
     * the snapshotted ids leave the queue, each visited once; ids enqueued
     * since the snapshot stay for the next pass.
     */
    method DrainPass(snapshot: map<nat, View>) returns (visited: seq<nat>)
      requires snapshot.Keys <= queue.Keys
      modifies this`queue
      ensures queue == old(queue) - snapshot.Keys
      ensures |visited| == |snapshot.Keys|
      ensures forall v :: v in visited <==> v in snapshot
      ensures forall i, j :: 0 <= i < j < |visited| ==> visited[i] != visited[j]
    {
      var pending := snapshot.Keys;
      visited := [];
      while |pending| > 0
        invariant pending <= snapshot.Keys
        invariant queue == old(queue) - (snapshot.Keys - pending)
        invariant forall v :: v in visited <==> v in snapshot.Keys - pending
        invariant forall i, j :: 0 <= i < j < |visited| ==> visited[i] != visited[j]
        invariant |visited| + |pending| == |snapshot.Keys|
        decreases pending
      {
        var vid :| vid in pending;
        // `_view = QUEUE[vid]`: the view handed to the deferred callback. A
        // snapshotted id is still queued, so neither this read nor the
        // `del` that Python wraps in `try` can fail.
        var scheduled := queue[vid];
        queue := queue - {vid};
        visited := visited + [vid];
        pending := pending - {vid};
      }
    }

    /** `on_modified`. */
    method OnModified(view: View)
      requires Valid()
      modifies this`queue, view`underline, view`outlines
      ensures SelectLinter(loader.linters, view.syntax).None? ==>
        queue == old(queue) && view.underline == [] && view.outlines == []
      ensures SelectLinter(loader.linters, view.syntax).Some? ==>
        queue == old(queue)[view.id := view] && view.underline == old(view.underline) && view.outlines == old(view.outlines)
    {
      QueueLinter(view);
    }

    /** `on_load`: run immediately when some linter matches the view; otherwise do nothing. */
    method OnLoad(view: View) returns (raised: bool)
      requires Valid()
      modifies this`errors, view`underline, view`outlines, view`notes
      ensures SelectLinter(loader.linters, view.syntax).None? ==>
        && !raised && errors == old(errors)
        && view.underline == old(view.underline) && view.outlines == old(view.outlines) && view.notes == old(view.notes)
      ensures SelectLinter(loader.linters, view.syntax).Some? ==>
        var linter := SelectLinter(loader.linters, view.syntax).value;
        var lints := Truthy(Get(view.settings, EnabledSetting));
        var lintRaised := lints && LintOf(linter, view).Raised?;
        var notesRun := !lintRaised && Truthy(Get(view.settings, NotesSetting));
        && (lints && !lintRaised ==>
              var res := LintOf(linter, view).value;
              errors == old(errors)[view.id := res.messages] && view.underline == res.underlines && view.outlines == Outlines(res.lines))
        && (!lints || lintRaised ==>
              errors == old(errors) && view.underline == old(view.underline) && view.outlines == old(view.outlines))
        && (notesRun ==> view.notes == NotesShown(loader.linters, view.text) && raised == NotesOutcome(loader.linters, view.text).Raised?)
        && (!notesRun ==> view.notes == old(view.notes) && raised == lintRaised)
    {
      var linter := SelectLinter(loader.linters, view.syntax);
      raised := false;
      if linter.Some? {
        raised := Run(linter, view);
      }
    }

    /**
     * `on_post_save`: when the saved file is the source of a registered
     * module, reload that module first; then queue the view against the
     * registry as it now stands. An exception from the reload escapes before
     * the view is queued.
     */
    method OnPostSave(view: View, importer: Importer) returns (raised: bool)
      requires Valid()
      modifies loader`linters, loader`cwd, this`queue, view`underline, view`outlines
      ensures Valid()
      ensures LoadResult(loader.linters, raised) == PostSaveReload(old(loader.linters), loader.modpath, view.fileName, importer)
      ensures !raised ==> loader.cwd == old(loader.cwd)
      ensures raised ==> loader.cwd == loader.basedir
      ensures raised ==>
        queue == old(queue) && view.underline == old(view.underline) && view.outlines == old(view.outlines)
      ensures !raised && SelectLinter(loader.linters, view.syntax).None? ==>
        queue == old(queue) && view.underline == [] && view.outlines == []
      ensures !raised && SelectLinter(loader.linters, view.syntax).Some? ==>
        queue == old(queue)[view.id := view] && view.underline == old(view.underline) && view.outlines == old(view.outlines)
    {
      raised := ReloadSaved(view.fileName, importer);
      if raised {
        return;
      }
      QueueLinter(view);
    }

    /** The loop of `on_post_save`: reload the first registered module whose source is the saved file. */
    method ReloadSaved(fileName: Option<string>, importer: Importer) returns (raised: bool)
      requires Valid()
      modifies loader`linters, loader`cwd
      ensures Valid()
      ensures LoadResult(loader.linters, raised) == PostSaveReload(old(loader.linters), loader.modpath, fileName, importer)
      ensures !raised ==> loader.cwd == old(loader.cwd)
      ensures raised ==> loader.cwd == loader.basedir
    {
      var saved := SavedModule(loader.linters, fileName);
      raised := false;
      if saved.Some? {
        raised := loader.ReloadModule(saved.value, importer);
      }
    }

    /**
     * `on_selection_modified`: show the messages of the cursor's row, or
     * clear the status. Only the status slot changes; the diagnostics are
     * only read.
     */
    method OnSelectionModified(view: View)
      modifies view`status
      ensures view.status == StatusFor(errors, view.id, view.cursorLine)
      ensures view.status.Some? <==> view.id in errors && view.cursorLine in errors[view.id]
    {
      var vid := view.id;
      var row := view.cursorLine;
      if vid in errors && row in errors[vid] {
        view.status := Some(Join(StatusSeparator, errors[vid][row]));
      } else {
        view.status := None;
      }
    }

    /**
     * The `run_linter` command: switch background linting off when it was
     * on, then run the named linter once if it is registered.
     */
    method RunLinter(view: View, name: string) returns (raised: bool)
      requires Valid()
      modifies this`errors, view`settings, view`underline, view`outlines
      ensures Truthy(Get(old(view.settings), EnabledSetting)) ==> view.settings == old(view.settings)[EnabledSetting := Null]
      ensures !Truthy(Get(old(view.settings), EnabledSetting)) ==> view.settings == old(view.settings)
      ensures !Truthy(Get(view.settings, EnabledSetting))
      ensures name !in loader.linters.entries ==>
        && !raised && errors == old(errors)
        && view.underline == old(view.underline) && view.outlines == old(view.outlines)
      ensures name in loader.linters.entries ==>
        var out := LintOf(loader.linters.entries[name], view);
        && raised == out.Raised?
        && (out.Raised? ==> errors == old(errors) && view.underline == old(view.underline) && view.outlines == old(view.outlines))
        && (out.Done? ==> errors == old(errors)[view.id := out.value.messages]
                          && view.underline == out.value.underlines && view.outlines == Outlines(out.value.lines))
    {
      if Truthy(Get(view.settings, EnabledSetting)) {
        view.settings := view.settings[EnabledSetting := Null];
      }
      raised := false;
      if name in loader.linters.entries {
        raised := RunLint(loader.linters.entries[name], view);
      }
    }
  }
}
