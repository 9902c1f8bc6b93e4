/**
 Selecting test files by what changed (`src/affected.rs`): classification of the changed paths,
 then three stages that each add files to one set. Paths are sequences of components; those of
 changed files are relative to the repository root.
 */
module Affected {
  import opened Options
  import opened Paths
  import opened PyAst
  import opened ImportGraph

  // ── What a changed path is ────────────────────────────────────────────────────────────

  const PYPROJECT: Path := ["pyproject.toml"]

  predicate EndsWith(file: Path, suffix: string) {
    file != [] && |suffix| <= |file[|file| - 1]| && file[|file| - 1][|file[|file| - 1]| - |suffix|..] == suffix
  }

  predicate IsDeclaration(file: Path) {
    EndsWith(file, ".py") && (EndsWith(file, "__fixtures__.py") || EndsWith(file, "__init__.py"))
  }

  predicate IsSource(file: Path) {
    EndsWith(file, ".py") && !IsDeclaration(file)
  }

  datatype ChangedFiles = ChangedFiles(runAll: bool, declarations: seq<Path>, sources: seq<Path>)

  /** `pyproject.toml` anywhere means everything runs; otherwise the Python files are split in
      order, and the rest counted. */
  method ClassifyChangedFiles(changed: seq<Path>) returns (r: ChangedFiles, nonPython: nat)
    ensures r.runAll <==> ["pyproject.toml"] in changed
    ensures !r.runAll ==> forall c :: c in r.declarations <==> c in changed && IsDeclaration(c)
    ensures !r.runAll ==> forall c :: c in r.sources <==> c in changed && IsSource(c)
    ensures !r.runAll ==> nonPython + |r.declarations| + |r.sources| == |changed|
  {
    r, nonPython := ChangedFiles(false, [], []), 0;
    for i := 0 to |changed|
      invariant !r.runAll && PYPROJECT !in changed[..i]
      invariant forall c :: c in r.declarations <==> c in changed[..i] && IsDeclaration(c)
      invariant forall c :: c in r.sources <==> c in changed[..i] && IsSource(c)
      invariant nonPython + |r.declarations| + |r.sources| == i
    {
      var c := changed[i];
      assert changed[..i + 1] == changed[..i] + [c];
      if c == PYPROJECT {
        return r.(runAll := true), nonPython;
      }
      if !EndsWith(c, ".py") {
        nonPython := nonPython + 1;
      } else if EndsWith(c, "__fixtures__.py") || EndsWith(c, "__init__.py") {
        r := r.(declarations := r.declarations + [c]);
      } else {
        r := r.(sources := r.sources + [c]);
      }
    }
    assert changed[..|changed|] == changed;
  }

  // ── The three rules ───────────────────────────────────────────────────────────────────

  type Parser = Path -> Option<seq<Stmt>>

  ghost predicate Direct(test: Path, root: Path, sources: seq<Path>) {
    exists c | c in sources :: test == root + c
  }

  function Parent(file: Path): Path {
    if file == [] then [] else file[..|file| - 1]
  }

  ghost predicate Declared(test: Path, root: Path, declarations: seq<Path>) {
    exists c | c in declarations :: Parent(root + c) <= test
  }

  ghost predicate Imported(test: Path, sources: seq<Path>, parse: Parser) {
    parse(test).Some? && ReachedByImport(parse(test).value, sources)
  }

  method DirectlyChanged(tests: seq<Path>, sources: seq<Path>, root: Path, affected: set<Path>) returns (out: set<Path>)
    ensures forall t :: t in out <==> t in affected || (t in tests && Direct(t, root, sources))
  {
    var absolute := set c | c in sources :: root + c;
    out := affected;
    for i := 0 to |tests|
      invariant forall t :: t in out <==> t in affected || (t in tests[..i] && Direct(t, root, sources))
    {
      assert tests[..i + 1] == tests[..i] + [tests[i]];
      if tests[i] in absolute {
        out := out + {tests[i]};
      }
    }
    assert tests[..|tests|] == tests;
  }

  method DeclarationAffected(tests: seq<Path>, declarations: seq<Path>, root: Path, affected: set<Path>) returns (out: set<Path>)
    ensures forall t :: t in out <==> t in affected || (t in tests && Declared(t, root, declarations))
  {
    var dirs := set c | c in declarations :: Parent(root + c);
    out := affected;
    for i := 0 to |tests|
      invariant forall t :: t in out <==> t in affected || (t in tests[..i] && Declared(t, root, declarations))
    {
      assert tests[..i + 1] == tests[..i] + [tests[i]];
      assert forall c | c in declarations :: Parent(root + c) in dirs;
      if exists dir | dir in dirs :: dir <= tests[i] {
        out := out + {tests[i]};
      }
    }
    assert tests[..|tests|] == tests;
  }

  // The import stage looks only at what the others left.
  method ImportAffected(tests: seq<Path>, sources: seq<Path>, parse: Parser, affected: set<Path>) returns (out: set<Path>)
    ensures forall t :: t in out <==> t in affected || (t in tests && Imported(t, sources, parse))
  {
    out := affected;
    for i := 0 to |tests|
      invariant affected <= out
      invariant forall t :: t in out <==> t in affected || (t in tests[..i] && Imported(t, sources, parse))
    {
      assert tests[..i + 1] == tests[..i] + [tests[i]];
      if tests[i] !in affected {
        var hit, matched := AnalyseFile(parse(tests[i]), sources);
        if hit {
          out := out + {tests[i]};
        }
      }
    }
    assert tests[..|tests|] == tests;
  }

  // ── The selection ─────────────────────────────────────────────────────────────────────

  ghost predicate Selected(test: Path, root: Path, changed: seq<Path>, parse: Parser) {
    || (exists c | c in changed :: IsSource(c) && test == root + c)
    || (exists c | c in changed :: IsDeclaration(c) && Parent(root + c) <= test)
    || (parse(test).Some? && exists c, m | c in changed ::
          IsSource(c) && ModuleParts(c) != [] && Imports(parse(test).value, m) && DottedPrefix(ModuleParts(c)[0], m))
  }

  /** The elements of a list that satisfy a predicate, in order. */
  ghost function Filter(tests: seq<Path>, keep: Path -> bool): seq<Path> {
    if tests == [] then []
    else Filter(tests[..|tests| - 1], keep) + if keep(tests[|tests| - 1]) then [tests[|tests| - 1]] else []
  }

  /** The result is the original-order selection of the tests that meet one of the three rules,
      or nothing at all to narrow when `pyproject.toml` changed. */
  method FilterAffected(tests: seq<Path>, root: Path, changed: seq<Path>, parse: Parser) returns (r: Option<seq<Path>>)
    ensures r.None? <==> ["pyproject.toml"] in changed
    ensures r.Some? ==> r.value == Filter(tests, t => Selected(t, root, changed, parse))
  {
    if changed == [] {
      NothingSelected(tests, t => Selected(t, root, changed, parse));
      return Some([]);
    }
    var classified, nonPython := ClassifyChangedFiles(changed);
    if classified.runAll {
      return None;
    }
    var affected := DirectlyChanged(tests, classified.sources, root, {});
    affected := DeclarationAffected(tests, classified.declarations, root, affected);
    if classified.sources != [] {
      affected := ImportAffected(tests, classified.sources, parse, affected);
    }
    ghost var keep := t => Selected(t, root, changed, parse);
    forall t | t in tests ensures t in affected <==> keep(t) {
      RulesAreSelection(t, root, changed, parse, classified);
    }
    var result := [];
    for i := 0 to |tests|
      invariant result == Filter(tests[..i], keep)
    {
      assert tests[..i + 1][..i] == tests[..i];
      if tests[i] in affected {
        result := result + [tests[i]];
      }
    }
    assert tests[..|tests|] == tests;
    r := Some(result);
  }

  lemma RulesAreSelection(t: Path, root: Path, changed: seq<Path>, parse: Parser, classified: ChangedFiles)
    requires forall c :: c in classified.declarations <==> c in changed && IsDeclaration(c)
    requires forall c :: c in classified.sources <==> c in changed && IsSource(c)
    ensures Selected(t, root, changed, parse) <==>
      Direct(t, root, classified.sources) || Declared(t, root, classified.declarations) || Imported(t, classified.sources, parse)
  {
  }

  lemma {:induction false} NothingSelected(tests: seq<Path>, keep: Path -> bool)
    requires forall t :: !keep(t)
    ensures Filter(tests, keep) == []
  {
    if tests == [] {
    } else {
      NothingSelected(tests[..|tests| - 1], keep);
    }
  }

  // ── The selection, on names ───────────────────────────────────────────────────────────

  // The file's name is something and then `suffix`.
  ghost predicate Named(file: Path, suffix: string) {
    exists stem :: file != [] && file[|file| - 1] == stem + suffix
  }

  lemma EndsWithMeans(file: Path, suffix: string)
    ensures EndsWith(file, suffix) <==> Named(file, suffix)
  {
    if EndsWith(file, suffix) {
      var name := file[|file| - 1];
      assert name == name[..|name| - |suffix|] + suffix;
    }
    if stem :| file != [] && file[|file| - 1] == stem + suffix {
      assert (stem + suffix)[|stem|..] == suffix;
    }
  }

  // A changed file that declares fixtures or a package; any other Python file.
  ghost predicate Declares(file: Path) {
    Named(file, "__fixtures__.py") || Named(file, "__init__.py")
  }

  ghost predicate IsPython(file: Path) {
    Named(file, ".py")
  }

  lemma DeclaresPython(file: Path)
    ensures Declares(file) ==> IsPython(file)
  {
    if stem :| file != [] && file[|file| - 1] == stem + "__fixtures__.py" {
      assert stem + "__fixtures__.py" == (stem + "__fixtures__") + ".py";
    }
    if stem :| file != [] && file[|file| - 1] == stem + "__init__.py" {
      assert stem + "__init__.py" == (stem + "__init__") + ".py";
    }
  }

  lemma KindsMean(file: Path)
    ensures IsDeclaration(file) <==> Declares(file)
    ensures IsSource(file) <==> IsPython(file) && !Declares(file)
  {
    EndsWithMeans(file, ".py");
    EndsWithMeans(file, "__fixtures__.py");
    EndsWithMeans(file, "__init__.py");
    DeclaresPython(file);
  }

  // The directory the file is in holds the test, at any depth.
  ghost predicate HoldsTest(root: Path, file: Path, test: Path) {
    file != [] && root + file[..|file| - 1] <= test
  }

  lemma ParentMeans(root: Path, file: Path, test: Path)
    requires file != []
    ensures Parent(root + file) <= test <==> HoldsTest(root, file, test)
  {
    assert Parent(root + file) == root + file[..|file| - 1];
  }

  /** Which tests are selected, on the names of files and the imports of the test alone: it changed
      itself; a changed declaration file's directory holds it; or it imports another changed
      Python file, by its first component or below. */
  lemma SelectedMeans(test: Path, root: Path, changed: seq<Path>, parse: Parser)
    ensures Selected(test, root, changed, parse) <==>
      || (exists c | c in changed :: IsPython(c) && !Declares(c) && test == root + c)
      || (exists c | c in changed :: Declares(c) && HoldsTest(root, c, test))
      || (parse(test).Some? && exists c | c in changed :: IsPython(c) && !Declares(c) && ImportsFile(parse(test).value, c))
  {
    forall c | c in changed
      ensures IsDeclaration(c) <==> Declares(c)
      ensures IsSource(c) <==> IsPython(c) && !Declares(c)
      ensures IsDeclaration(c) ==> (Parent(root + c) <= test <==> HoldsTest(root, c, test))
      ensures parse(test).Some? && IsSource(c) ==>
        (ImportsFile(parse(test).value, c) <==>
         exists m :: ModuleParts(c) != [] && Imports(parse(test).value, m) && DottedPrefix(ModuleParts(c)[0], m))
    {
      KindsMean(c);
      if IsDeclaration(c) {
        ParentMeans(root, c, test);
      }
      if parse(test).Some? && IsSource(c) {
        SourceImported(parse(test).value, c);
      }
    }
  }

  lemma SourceImported(body: seq<Stmt>, c: Path)
    requires IsPython(c)
    ensures ImportsFile(body, c) <==> exists m :: ModuleParts(c) != [] && Imports(body, m) && DottedPrefix(ModuleParts(c)[0], m)
  {
    var name :| c[|c| - 1] == name + ".py";
    assert c == c[..|c| - 1] + [name + ".py"];
    ImportsFileMeans(body, c[..|c| - 1], name);
  }
}
