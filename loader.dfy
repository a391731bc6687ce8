/**
 * The loader that discovers linter modules under `sublimelint/modules`,
 * imports them and registers each under its `language` key.
 */
module ModuleLoader {
  import opened Base
  import opened Strings
  import opened Linters

  /** Where the linter modules live, relative to the loader's base directory. */
  const BasePath: string := "sublimelint/modules"

  /** Module names that `load_all` skips: a one-element tuple, so membership is equality. */
  const Ignored: seq<string> := ["__init__"]

  /** Characters `rstrip` removes from a module's file name, so that `.pyc` and `.pyo` become `.py`. */
  const CompiledSuffix: set<char> := {'c', 'o'}

  /**
   * The Python import system as the loader sees it: importing and then
   * reloading a qualified module name yields the module object, or raises.
   */
  type Importer = string -> Outcome<Module>

  /** `'%s.%s' % (modpath, name)`. */
  function QualifiedName(modpath: string, name: string): string {
    modpath + "." + name
  }

  /** The dotted package path of the linter modules. */
  lemma ModPathOfBasePath()
    ensures ReplaceChar(BasePath, '/', '.') == "sublimelint.modules"
  {
  }

  /** `os.path.split(path)[1]`: what follows the last `/`. */
  function Basename(path: string): string {
    if path == [] || path[|path| - 1] == '/' then []
    else Basename(path[..|path| - 1]) + [path[|path| - 1]]
  }

  /** The base name is a suffix of the path without `/`, preceded by `/` unless it is the whole path. */
  lemma {:induction false} BasenameIsLastComponent(path: string)
    ensures '/' !in Basename(path)
    ensures EndsWith(path, Basename(path))
    ensures |Basename(path)| < |path| ==> path[|path| - |Basename(path)| - 1] == '/'
  {
    if path != [] && path[|path| - 1] != '/' {
      var init, c := path[..|path| - 1], path[|path| - 1];
      BasenameIsLastComponent(init);
      var r := Basename(init);
      EndsWithSnoc(init, r, c);
      assert init + [c] == path;
      assert |r| < |init| ==> path[|init| - |r| - 1] == init[|init| - |r| - 1];
    }
  }

  /** `name.split('.', 1)[0]`: what precedes the first `.`. */
  function ModuleName(file: string): string {
    if file == [] || file[0] == '.' then []
    else [file[0]] + ModuleName(file[1..])
  }

  /** The module name is a prefix of the file name without `.`, followed by `.` unless it is the whole name. */
  lemma {:induction false} ModuleNameIsFirstPart(file: string)
    ensures '.' !in ModuleName(file)
    ensures StartsWith(file, ModuleName(file))
    ensures |ModuleName(file)| < |file| ==> file[|ModuleName(file)|] == '.'
  {
    if file != [] && file[0] != '.' {
      ModuleNameIsFirstPart(file[1..]);
      var r := ModuleName(file[1..]);
      assert file[..|r| + 1] == [file[0]] + file[1..][..|r|];
    }
  }

  /** The module name `load_all` derives from one path returned by the glob. */
  function NameOfPath(path: string): string {
    ModuleName(Basename(path))
  }

  /** A derived module name contains neither `/` nor `.`. */
  lemma NameOfPathIsBare(path: string)
    ensures '.' !in NameOfPath(path) && '/' !in NameOfPath(path)
  {
    var b := Basename(path);
    BasenameIsLastComponent(path);
    ModuleNameIsFirstPart(b);
    assert NameOfPath(path) == b[..|ModuleName(b)|];
  }

  /** The names `load_all` passes to `load_module`, in enumeration order. */
  function LoadedNames(files: seq<string>, ignore: seq<string>): (r: seq<string>)
    ensures |r| <= |files|
  {
    if files == [] then []
    else
      var last := files[|files| - 1];
      var prior := LoadedNames(files[..|files| - 1], ignore);
      if NameOfPath(last) in ignore then prior else prior + [NameOfPath(last)]
  }

  /**
   * `load_all` passes on exactly the names of the enumerated files that are
   * not ignored, and every such name is a bare module name.
   */
  lemma {:induction false} LoadedNamesMembers(files: seq<string>, ignore: seq<string>)
    ensures forall n :: n in LoadedNames(files, ignore) ==> n !in ignore && '.' !in n && '/' !in n
    ensures forall n :: n in LoadedNames(files, ignore) <==> exists f :: f in files && NameOfPath(f) == n && n !in ignore
  {
    if files != [] {
      var init := files[..|files| - 1];
      LoadedNamesMembers(init, ignore);
      NameOfPathIsBare(files[|files| - 1]);
      assert forall f :: f in files <==> f in init || f == files[|files| - 1];
    }
  }

  /** The state a load leaves behind: the registry, and whether an exception escaped. */
  datatype LoadResult = LoadResult(table: Table, raised: bool)

  /**
   * `load_module(name)`: import `modpath.name`; on success rewrite its
   * `__file__` without the compiled suffix and register it under its
   * language. An import error escapes (the import is outside the `try`);
   * a missing `language` is caught and leaves the registry as it was.
   */
  function LoadOne(t: Table, modpath: string, name: string, importer: Importer): (r: LoadResult)
    requires t.Valid()
    ensures r.table.Valid()
    ensures r.raised <==> importer(QualifiedName(modpath, name)).Raised?
    ensures r.raised || importer(QualifiedName(modpath, name)).value.language.None? ==> r.table == t
  {
    var fullmod := QualifiedName(modpath, name);
    match importer(fullmod)
    case Raised => LoadResult(t, true)
    case Done(m) => LoadResult(Register(t, m.(name := fullmod, file := RStrip(m.file, CompiledSuffix))), false)
  }

  /**
   * A successful import of a module that declares a language registers it
   * under that language, with its qualified name and its source file name,
   * and keeps every other entry.
   */
  lemma LoadOneRegisters(t: Table, modpath: string, name: string, importer: Importer, m: Module, l: string)
    requires t.Valid()
    requires importer(QualifiedName(modpath, name)) == Done(m) && m.language == Some(l)
    ensures var r := LoadOne(t, modpath, name, importer);
      && !r.raised
      && r.table.entries.Keys == t.entries.Keys + {l}
      && r.table.entries[l] == m.(name := QualifiedName(modpath, name), file := RStrip(m.file, CompiledSuffix))
      && forall k :: k in t.entries && k != l ==> r.table.entries[k] == t.entries[k]
  {
  }

  /** Loading `names` one after another, stopping at the first exception. */
  function LoadNames(t: Table, modpath: string, names: seq<string>, importer: Importer): (r: LoadResult)
    requires t.Valid()
    ensures r.table.Valid()
  {
    if names == [] then LoadResult(t, false)
    else
      var prior := LoadNames(t, modpath, names[..|names| - 1], importer);
      if prior.raised then prior
      else LoadOne(prior.table, modpath, names[|names| - 1], importer)
  }

  /** The language a name's module declares, if it imports and declares one. */
  function LanguageOf(modpath: string, n: string, importer: Importer): set<string> {
    var o := importer(QualifiedName(modpath, n));
    if o.Done? && o.value.language.Some? then {o.value.language.value} else {}
  }

  /** Every name imports without raising. */
  predicate AllImport(modpath: string, names: seq<string>, importer: Importer) {
    names == [] || (AllImport(modpath, names[..|names| - 1], importer) && importer(QualifiedName(modpath, names[|names| - 1])).Done?)
  }

  /** The languages of the modules the names import. */
  function Languages(modpath: string, names: seq<string>, importer: Importer): set<string> {
    if names == [] then {}
    else Languages(modpath, names[..|names| - 1], importer) + LanguageOf(modpath, names[|names| - 1], importer)
  }

  /** One more name adds the language of its module. */
  lemma LanguagesSnoc(modpath: string, names: seq<string>, n: string, importer: Importer)
    ensures Languages(modpath, names + [n], importer) == Languages(modpath, names, importer) + LanguageOf(modpath, n, importer)
  {
    assert (names + [n])[..|names|] == names;
  }

  /** `AllImport` says what its name says. */
  lemma {:induction false} AllImportMembers(modpath: string, names: seq<string>, importer: Importer)
    ensures AllImport(modpath, names, importer) <==> forall n :: n in names ==> importer(QualifiedName(modpath, n)).Done?
  {
    if names != [] {
      var init := names[..|names| - 1];
      AllImportMembers(modpath, init, importer);
      assert forall n :: n in names <==> n in init || n == names[|names| - 1];
    }
  }

  /** A successful load adds the language of the module, if it declares one. */
  lemma LoadOneKeys(prior: LoadResult, modpath: string, n: string, importer: Importer, r: LoadResult)
    requires prior.table.Valid() && !prior.raised && importer(QualifiedName(modpath, n)).Done?
    requires r == LoadOne(prior.table, modpath, n, importer)
    ensures !r.raised
    ensures r.table.entries.Keys == prior.table.entries.Keys + LanguageOf(modpath, n, importer)
  {
    var m := importer(QualifiedName(modpath, n)).value;
    if m.language.Some? {
      LoadOneRegisters(prior.table, modpath, n, importer, m, m.language.value);
    }
  }

  /** When every import succeeds, loading adds exactly the declared languages and raises nothing. */
  lemma {:induction false} LoadNamesKeys(t: Table, modpath: string, names: seq<string>, importer: Importer)
    requires t.Valid()
    requires AllImport(modpath, names, importer)
    ensures !LoadNames(t, modpath, names, importer).raised
    ensures LoadNames(t, modpath, names, importer).table.entries.Keys == t.entries.Keys + Languages(modpath, names, importer)
  {
    if names != [] {
      var init, last := names[..|names| - 1], names[|names| - 1];
      LoadNamesKeys(t, modpath, init, importer);
      LoadOneKeys(LoadNames(t, modpath, init, importer), modpath, last, importer, LoadNames(t, modpath, names, importer));
    }
  }

  /** Loading a module of another language, of none, or one whose import raises, keeps the entry for `l`. */
  lemma LoadOneKeeps(t: Table, modpath: string, name: string, importer: Importer, l: string)
    requires t.Valid() && l in t.entries
    requires l !in LanguageOf(modpath, name, importer)
    ensures l in LoadOne(t, modpath, name, importer).table.entries
    ensures LoadOne(t, modpath, name, importer).table.entries[l] == t.entries[l]
  {
    var o := importer(QualifiedName(modpath, name));
    if o.Done? && o.value.language.Some? {
      LoadOneRegisters(t, modpath, name, importer, o.value, o.value.language.value);
    }
  }

  /**
   * Last one loaded wins: when `x` is the last of the names to declare
   * language `l`, the registry maps `l` to the module imported for `x`,
   * whether or not a later import raises and stops the loading.
   */
  lemma {:induction false} LoadNamesLastWins(t: Table, modpath: string, pre: seq<string>, x: string, post: seq<string>, importer: Importer, l: string)
    requires t.Valid()
    requires AllImport(modpath, pre + [x], importer)
    requires importer(QualifiedName(modpath, x)).Done? && importer(QualifiedName(modpath, x)).value.language == Some(l)
    requires forall n :: n in post ==> l !in LanguageOf(modpath, n, importer)
    ensures l in LoadNames(t, modpath, pre + [x] + post, importer).table.entries
    ensures LoadNames(t, modpath, pre + [x] + post, importer).table.entries[l].name == QualifiedName(modpath, x)
  {
    if post == [] {
      assert pre + [x] + post == pre + [x] && (pre + [x])[..|pre|] == pre;
      LoadNamesKeys(t, modpath, pre, importer);
      LoadNamesSnoc(t, modpath, pre, x, importer);
      var prior := LoadNames(t, modpath, pre, importer);
      LoadOneRegisters(prior.table, modpath, x, importer, importer(QualifiedName(modpath, x)).value, l);
    } else {
      var init, last := post[..|post| - 1], post[|post| - 1];
      var names := pre + [x] + post;
      assert names == (pre + [x] + init) + [last];
      assert names[..|names| - 1] == pre + [x] + init && names[|names| - 1] == last;
      assert last in post;
      LoadNamesLastWins(t, modpath, pre, x, init, importer, l);
      LoadNamesSnoc(t, modpath, pre + [x] + init, last, importer);
      var prior := LoadNames(t, modpath, pre + [x] + init, importer);
      if !prior.raised {
        LoadOneKeeps(prior.table, modpath, last, importer, l);
      }
    }
  }


  /** Once a load has raised, loading further names changes nothing: `load_all` has stopped. */
  lemma {:induction false} LoadNamesStopped(t: Table, modpath: string, names: seq<string>, more: seq<string>, importer: Importer)
    requires t.Valid()
    requires LoadNames(t, modpath, names, importer).raised
    ensures LoadNames(t, modpath, names + more, importer) == LoadNames(t, modpath, names, importer)
  {
    if more == [] {
      assert names + more == names;
    } else {
      var init := more[..|more| - 1];
      assert (names + more)[..|names + more| - 1] == names + init;
      LoadNamesStopped(t, modpath, names, init, importer);
    }
  }

  /** Loading one more name: `LoadNames` read as the loop `load_all` runs. */
  lemma LoadNamesSnoc(t: Table, modpath: string, names: seq<string>, n: string, importer: Importer)
    requires t.Valid()
    ensures var prior := LoadNames(t, modpath, names, importer);
      LoadNames(t, modpath, names + [n], importer)
        == if prior.raised then prior else LoadOne(prior.table, modpath, n, importer)
  {
    assert (names + [n])[..|names|] == names;
  }

  /**
   * `load_all` read as the loop over the enumerated files it is: skip an
   * ignored name, load the others in order, stop at the first exception.
   */
  function LoadFiles(t: Table, modpath: string, files: seq<string>, ignore: seq<string>, importer: Importer): (r: LoadResult)
    requires t.Valid()
    ensures r.table.Valid()
  {
    if files == [] then LoadResult(t, false)
    else
      var prior := LoadFiles(t, modpath, files[..|files| - 1], ignore, importer);
      var name := NameOfPath(files[|files| - 1]);
      if prior.raised || name in ignore then prior
      else LoadOne(prior.table, modpath, name, importer)
  }

  /** Walking the files is loading the names derived from them. */
  lemma {:induction false} LoadFilesIsLoadNames(t: Table, modpath: string, files: seq<string>, ignore: seq<string>, importer: Importer)
    requires t.Valid()
    ensures LoadFiles(t, modpath, files, ignore, importer) == LoadNames(t, modpath, LoadedNames(files, ignore), importer)
  {
    if files != [] {
      var init := files[..|files| - 1];
      LoadFilesIsLoadNames(t, modpath, init, ignore, importer);
      var name := NameOfPath(files[|files| - 1]);
      if name !in ignore {
        LoadNamesSnoc(t, modpath, LoadedNames(init, ignore), name, importer);
      }
    }
  }

  /**
   * One pass of the loop in `load_all`: when `after` is what handling
   * `files[i]` leaves behind, it is what walking one more file gives, and
   * when it raised, what walking all of them gives.
   */
  lemma LoadFilesNext(t: Table, modpath: string, files: seq<string>, i: nat, ignore: seq<string>, importer: Importer, before: Table, after: LoadResult)
    requires t.Valid() && i < |files|
    requires LoadFiles(t, modpath, files[..i], ignore, importer) == LoadResult(before, false)
    requires after == if NameOfPath(files[i]) in ignore then LoadResult(before, false) else LoadOne(before, modpath, NameOfPath(files[i]), importer)
    ensures LoadFiles(t, modpath, files[..i + 1], ignore, importer) == after
    ensures after.raised ==> LoadFiles(t, modpath, files, ignore, importer) == after
  {
    assert files[..i + 1][..i] == files[..i];
    if after.raised {
      LoadFilesStopped(t, modpath, files, i + 1, ignore, importer);
    }
  }

  /** Once loading the files up to `j` has raised, the remaining files are never loaded. */
  lemma {:induction false} LoadFilesStopped(t: Table, modpath: string, files: seq<string>, j: nat, ignore: seq<string>, importer: Importer)
    requires t.Valid() && j <= |files|
    requires LoadFiles(t, modpath, files[..j], ignore, importer).raised
    ensures LoadFiles(t, modpath, files, ignore, importer) == LoadFiles(t, modpath, files[..j], ignore, importer)
  {
    if j == |files| {
      assert files[..j] == files;
    } else {
      var init := files[..|files| - 1];
      assert init[..j] == files[..j];
      LoadFilesStopped(t, modpath, init, j, ignore, importer);
    }
  }

  /**
   * Three modules, the second without a `language`: the first and third are
   * registered and nothing raises.
   */
  lemma MissingLanguageIsIsolated(modpath: string, a: string, b: string, c: string, importer: Importer, la: string, lc: string)
    requires importer(QualifiedName(modpath, a)).Done? && importer(QualifiedName(modpath, a)).value.language == Some(la)
    requires importer(QualifiedName(modpath, b)).Done? && importer(QualifiedName(modpath, b)).value.language.None?
    requires importer(QualifiedName(modpath, c)).Done? && importer(QualifiedName(modpath, c)).value.language == Some(lc)
    ensures !LoadNames(EmptyTable, modpath, [a, b, c], importer).raised
    ensures LoadNames(EmptyTable, modpath, [a, b, c], importer).table.entries.Keys == {la, lc}
  {
    assert [a, b, c][..2] == [a, b] && [a, b][..1] == [a] && [a][..0] == [];
    assert AllImport(modpath, [a], importer) && AllImport(modpath, [a, b], importer);
    LanguagesSnoc(modpath, [], a, importer);
    LanguagesSnoc(modpath, [a], b, importer);
    LanguagesSnoc(modpath, [a, b], c, importer);
    assert [] + [a] == [a] && [a] + [b] == [a, b] && [a, b] + [c] == [a, b, c];
    LoadNamesKeys(EmptyTable, modpath, [a, b, c], importer);
  }



  /**
   * Three modules, the second failing to import: the error escapes and the
   * third is never loaded, so only the first is registered.
   */
  lemma ImportErrorStopsLoading(modpath: string, a: string, b: string, c: string, importer: Importer, la: string)
    requires importer(QualifiedName(modpath, a)).Done? && importer(QualifiedName(modpath, a)).value.language == Some(la)
    requires importer(QualifiedName(modpath, b)).Raised?
    ensures LoadNames(EmptyTable, modpath, [a, b, c], importer).raised
    ensures LoadNames(EmptyTable, modpath, [a, b, c], importer).table.entries.Keys == {la}
  {
    assert [a][..0] == [];
    LoadNamesKeys(EmptyTable, modpath, [a], importer);
    LoadNamesSnoc(EmptyTable, modpath, [a], b, importer);
    assert [a] + [b] == [a, b];
    LoadNamesStopped(EmptyTable, modpath, [a, b], [c], importer);
    assert [a, b] + [c] == [a, b, c];
  }



  /**
   * `reload_module`'s name resolution: nothing when the qualified name does
   * not start with `modpath`, otherwise the name with the first
   * `modpath + '.'` removed.
   */
  function ReloadTarget(modpath: string, fullmod: string): (r: Option<string>)
    ensures r.None? <==> !StartsWith(fullmod, modpath)
    ensures StartsWith(fullmod, modpath + ".") ==> r == Some(fullmod[|modpath| + 1..])
  {
    if !StartsWith(fullmod, modpath) then None
    else
      var name := ReplaceFirst(fullmod, modpath + ".", "");
      assert StartsWith(fullmod, modpath + ".") ==> name == "" + fullmod[|modpath + "."|..];
      assert StartsWith(fullmod, modpath + ".") ==> "" + fullmod[|modpath + "."|..] == fullmod[|modpath| + 1..];
      Some(name)
  }

  /** Stripping the namespace and rebuilding the qualified name gives back the original name. */
  lemma ReloadRoundTrip(modpath: string, name: string)
    ensures ReloadTarget(modpath, QualifiedName(modpath, name)) == Some(name)
  {
    var fullmod := QualifiedName(modpath, name);
    assert StartsWith(fullmod, modpath + ".") && fullmod[|modpath| + 1..] == name;
  }

  /**
   * The guard tests `modpath` without the dot: a name that merely extends
   * the package name (`sublimelint.modulesx`) passes it, comes back
   * unchanged, and is rebuilt under the package, so the round trip fails
   * outside the namespace.
   */
  lemma LooseGuard(modpath: string, fullmod: string)
    requires StartsWith(fullmod, modpath) && !Contains(fullmod, modpath + ".")
    ensures ReloadTarget(modpath, fullmod) == Some(fullmod)
    ensures QualifiedName(modpath, ReloadTarget(modpath, fullmod).value) != fullmod
  {
    assert |QualifiedName(modpath, fullmod)| > |fullmod|;
  }

  /** What `reload_module(module)` does to the registry. */
  function ReloadResult(t: Table, modpath: string, fullmod: string, importer: Importer): (r: LoadResult)
    requires t.Valid()
    ensures r.table.Valid()
    ensures !StartsWith(fullmod, modpath) ==> r == LoadResult(t, false)
  {
    match ReloadTarget(modpath, fullmod)
    case None => LoadResult(t, false)
    case Some(name) => LoadOne(t, modpath, name, importer)
  }

  /** Every registered module carries a qualified name under the package, so it can be reloaded by that name. */
  ghost predicate NamesUnder(t: Table, modpath: string) {
    forall k :: k in t.entries ==> StartsWith(t.entries[k].name, modpath + ".")
  }

  /** A qualified name lies under its package. */
  lemma QualifiedNameUnder(modpath: string, name: string)
    ensures StartsWith(QualifiedName(modpath, name), modpath + ".")
  {
    assert QualifiedName(modpath, name)[..|modpath + "."|] == modpath + ".";
  }

  /** Loading one module keeps every registered module reloadable. */
  lemma LoadOneKeepsNamesUnder(t: Table, modpath: string, name: string, importer: Importer)
    requires t.Valid() && NamesUnder(t, modpath)
    ensures NamesUnder(LoadOne(t, modpath, name, importer).table, modpath)
  {
    var q := QualifiedName(modpath, name);
    if importer(q).Done? && importer(q).value.language.Some? {
      LoadOneRegisters(t, modpath, name, importer, importer(q).value, importer(q).value.language.value);
      QualifiedNameUnder(modpath, name);
    }
  }

  /** Loading and reloading keep every registered module reloadable. */
  lemma {:induction false} LoadNamesKeepsNamesUnder(t: Table, modpath: string, names: seq<string>, importer: Importer)
    requires t.Valid() && NamesUnder(t, modpath)
    ensures NamesUnder(LoadNames(t, modpath, names, importer).table, modpath)
  {
    if names != [] {
      var init, last := names[..|names| - 1], names[|names| - 1];
      LoadNamesKeepsNamesUnder(t, modpath, init, importer);
      var prior := LoadNames(t, modpath, init, importer);
      if !prior.raised {
        LoadOneKeepsNamesUnder(prior.table, modpath, last, importer);
      }
    }
  }

  /**
   * The `Loader` object. `linters` is the registry dictionary the plugin
   * shares with it; `cwd` is the process working directory, which
   * `load_module` changes and restores.
   */
  class Loader {
    const basedir: string
    const basepath: string
    const modpath: string
    const ignore: seq<string>
    var linters: Table
    var cwd: string

    ghost predicate Valid()
      reads this
    {
      linters.Valid() && NamesUnder(linters, modpath)
    }

    /**
     * `Loader(basedir, linters)`, called with the current directory and the
     * empty registry: fix the paths, then load every module that the `*.py`
     * glob under `basepath` returns (`files`).
     */
    constructor (basedir: string, files: seq<string>, importer: Importer)
      ensures Valid()
      ensures this.basedir == basedir && basepath == BasePath && ignore == Ignored
      ensures modpath == "sublimelint.modules"
      ensures linters == LoadNames(EmptyTable, modpath, LoadedNames(files, Ignored), importer).table
    {
      this.basedir := basedir;
      basepath := BasePath;
      linters := EmptyTable;
      modpath := ReplaceChar(BasePath, '/', '.');
      ignore := Ignored;
      cwd := basedir;
      new;
      ModPathOfBasePath();
      var _ := LoadAll(files, importer);
      LoadFilesIsLoadNames(EmptyTable, modpath, files, Ignored, importer);
    }

    /** `load_module(name)`; the working directory is restored only when the import succeeds. */
    method LoadModule(name: string, importer: Importer) returns (raised: bool)
      requires Valid()
      modifies this`linters, this`cwd
      ensures Valid()
      ensures LoadResult(linters, raised) == LoadOne(old(linters), modpath, name, importer)
      ensures !raised ==> cwd == old(cwd)
      ensures raised ==> cwd == basedir
    {
      var fullmod := QualifiedName(modpath, name);
      var pushd := cwd;
      cwd := basedir;
      var imported := importer(fullmod);
      if imported.Raised? {
        raised := true;
        return;
      }
      var m := imported.value.(name := fullmod, file := RStrip(imported.value.file, CompiledSuffix));
      if m.language.Some? {
        linters := Put(linters, m.language.value, m);
      }
      raised := false;
      cwd := pushd;
    }

    /** `load_all(files)`: load every non-ignored module in enumeration order until one raises. */
    method LoadAll(files: seq<string>, importer: Importer) returns (raised: bool)
      requires Valid()
      modifies this`linters, this`cwd
      ensures Valid()
      ensures LoadResult(linters, raised) == LoadFiles(old(linters), modpath, files, ignore, importer)
      ensures !raised ==> cwd == old(cwd)
      ensures raised ==> cwd == basedir
    {
      raised := false;
      var i := 0;
      assert files[..0] == [];
      while i < |files|
        invariant 0 <= i <= |files|
        invariant Valid() && cwd == old(cwd)
        invariant LoadFiles(old(linters), modpath, files[..i], ignore, importer) == LoadResult(linters, false)
      {
        ghost var before := linters;
        var name := NameOfPath(files[i]);
        if name !in ignore {
          raised := LoadModule(name, importer);
        }
        LoadFilesNext(old(linters), modpath, files, i, ignore, importer, before, LoadResult(linters, raised));
        if raised {
          return;
        }
        i := i + 1;
      }
      assert files[..i] == files;
    }

    /** `reload_module(module)`: reload it under the name left after stripping the package path. */
    method ReloadModule(unit: Module, importer: Importer) returns (raised: bool)
      requires Valid()
      modifies this`linters, this`cwd
      ensures Valid()
      ensures LoadResult(linters, raised) == ReloadResult(old(linters), modpath, unit.name, importer)
      ensures !StartsWith(unit.name, modpath) ==> cwd == old(cwd)
      ensures !raised ==> cwd == old(cwd)
      ensures raised ==> cwd == basedir
    {
      var fullmod := unit.name;
      if !StartsWith(fullmod, modpath) {
        return false;
      }
      var name := ReplaceFirst(fullmod, modpath + ".", "");
      raised := LoadModule(name, importer);
    }
  }
}
