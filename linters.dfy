/**
 * Linter modules and the process-wide `LINTERS` registry that maps a
 * language key to the module that lints it.
 */
module Linters {
  import opened Base
  import opened Strings

  /** A region of a view's text as the editor draws it: a span of characters, or a whole line. */
  datatype Region = Span(begin: int, end: int) | WholeLine(row: int)

  /** What a linter's `run(text, view, filename)` returns: spans to underline, rows to outline, messages per row. */
  datatype LintResult = LintResult(underlines: seq<Region>, lines: seq<int>, messages: map<int, seq<string>>)

  /**
   * A loaded linter module: its qualified `__name__`, its `__file__`, its
   * optional `language` attribute, and the two ways the plugin calls it.
   * `lint` is `run(text, view, filename)` of an ordinary linter; `notes` is
   * `run(view, text)` of the "user notes" module. Both are uninterpreted and
   * may raise.
   */
  datatype Module = Module(
    name: string,
    file: string,
    language: Option<string>,
    lint: (string, string) -> Outcome<LintResult>,
    notes: string -> Outcome<seq<Region>>)

  /**
   * The `LINTERS` dictionary: its entries and the order in which iterating
   * over it visits the keys. The model keeps insertion order.
   */
  datatype Table = Table(entries: map<string, Module>, order: seq<string>) {
    /** Every key is visited exactly once. */
    ghost predicate Valid() {
      && (forall i, j :: 0 <= i < j < |order| ==> order[i] != order[j])
      && (forall k :: k in entries <==> k in order)
    }
  }

  const EmptyTable := Table(map[], [])

  /** `LINTERS[key] = m`: the key now maps to `m` and every other entry is kept; a new key is visited last. */
  function Put(t: Table, key: string, m: Module): (r: Table)
    requires t.Valid()
    ensures r.Valid()
    ensures r.entries.Keys == t.entries.Keys + {key}
    ensures r.entries[key] == m
    ensures forall k :: k in t.entries && k != key ==> r.entries[k] == t.entries[k]
  {
    if key in t.entries then Table(t.entries[key := m], t.order)
    else Table(t.entries[key := m], t.order + [key])
  }

  /**
   * `LINTERS[mod.language] = mod`, or nothing when the module has no
   * `language` attribute: the last module loaded for a language wins.
   */
  function Register(t: Table, m: Module): (r: Table)
    requires t.Valid()
    ensures r.Valid()
    ensures m.language.None? ==> r == t
    ensures m.language.Some? ==>
      && r.entries.Keys == t.entries.Keys + {m.language.value}
      && r.entries[m.language.value] == m
      && forall k :: k in t.entries && k != m.language.value ==> r.entries[k] == t.entries[k]
  {
    match m.language
    case None => t
    case Some(l) => Put(t, l, m)
  }

  /** The first position in `keys` whose key satisfies `p`, as a `for ... if ...: return` loop finds it. */
  function FirstIndex(keys: seq<string>, p: string -> bool): (r: Option<nat>)
    ensures r.Some? ==> r.value < |keys|
  {
    if keys == [] then None
    else if p(keys[0]) then Some(0)
    else match FirstIndex(keys[1..], p)
      case None => None
      case Some(i) => Some(i + 1)
  }

  /** The position found is the first that satisfies `p`; there is none exactly when no key satisfies it. */
  lemma {:induction false} FirstIndexIsFirst(keys: seq<string>, p: string -> bool)
    ensures var r := FirstIndex(keys, p);
      && (r.Some? ==> p(keys[r.value]) && forall j :: 0 <= j < r.value ==> !p(keys[j]))
      && (r.None? <==> forall j :: 0 <= j < |keys| ==> !p(keys[j]))
  {
    if keys != [] && !p(keys[0]) {
      FirstIndexIsFirst(keys[1..], p);
      assert forall j :: 1 <= j < |keys| ==> keys[j] == keys[1..][j - 1];
    }
  }

  /**
   * `select_linter`: the module of the first registered language key, in
   * iteration order, that occurs as a substring of the view's syntax; None
   * exactly when no registered key occurs in it.
   */
  function SelectLinter(t: Table, syntax: string): Option<Module>
    requires t.Valid()
  {
    match FirstIndex(t.order, k => Contains(syntax, k))
    case None => None
    case Some(i) => Some(t.entries[t.order[i]])
  }

  /**
   * The selected module is registered under a key that occurs in the
   * syntax, and there is none exactly when no registered key occurs in it.
   */
  lemma SelectLinterMatches(t: Table, syntax: string)
    requires t.Valid()
    ensures SelectLinter(t, syntax).None? <==> forall k :: k in t.entries ==> !Contains(syntax, k)
    ensures SelectLinter(t, syntax).Some? ==>
      exists k :: k in t.entries && Contains(syntax, k) && SelectLinter(t, syntax).value == t.entries[k]
  {
    FirstIndexIsFirst(t.order, k => Contains(syntax, k));
  }

  /** Of several matching keys, the one iteration visits first wins. */
  lemma SelectLinterFirst(t: Table, syntax: string)
    requires t.Valid()
    ensures SelectLinter(t, syntax).Some? ==>
      exists i :: 0 <= i < |t.order| && Contains(syntax, t.order[i])
        && SelectLinter(t, syntax).value == t.entries[t.order[i]]
        && forall j :: 0 <= j < i ==> !Contains(syntax, t.order[j])
  {
    var found := FirstIndex(t.order, k => Contains(syntax, k));
    FirstIndexIsFirst(t.order, k => Contains(syntax, k));
    if found.Some? {
      var i := found.value;
      assert Contains(syntax, t.order[i]) && forall j :: 0 <= j < i ==> !Contains(syntax, t.order[j]);
    }
  }

  /** When exactly one registered key matches the syntax, the selection does not depend on iteration order. */
  lemma SelectUnique(t: Table, syntax: string, key: string)
    requires t.Valid() && key in t.entries && Contains(syntax, key)
    requires forall k :: k in t.entries && k != key ==> !Contains(syntax, k)
    ensures SelectLinter(t, syntax) == Some(t.entries[key])
  {
    SelectLinterMatches(t, syntax);
  }

  /**
   * The module that `on_post_save` reloads: the first registered module, in
   * iteration order, whose `__file__` equals the saved view's file name.
   */
  function SavedModule(t: Table, fileName: Option<string>): Option<Module>
    requires t.Valid()
  {
    match FirstIndex(t.order, k => k in t.entries && Some(t.entries[k].file) == fileName)
    case None => None
    case Some(i) => Some(t.entries[t.order[i]])
  }

  /**
   * The module found comes from the saved file and is registered, and there
   * is none exactly when no registered module comes from that file.
   */
  lemma SavedModuleMatches(t: Table, fileName: Option<string>)
    requires t.Valid()
    ensures SavedModule(t, fileName).None? <==> forall k :: k in t.entries ==> Some(t.entries[k].file) != fileName
    ensures SavedModule(t, fileName).Some? ==>
      && fileName == Some(SavedModule(t, fileName).value.file)
      && exists k :: k in t.entries && SavedModule(t, fileName).value == t.entries[k]
  {
    FirstIndexIsFirst(t.order, k => k in t.entries && Some(t.entries[k].file) == fileName);
  }
}
