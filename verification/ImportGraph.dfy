/**
 Which test files a change can reach through imports (`src/import_graph.rs`). Module names are
 dotted strings; a file path is its sequence of components.
 */
module ImportGraph {
  import opened Options
  import opened Paths
  import opened PyAst

  // ── Dotted names ──────────────────────────────────────────────────────────────────────

  function FirstDot(s: string): (n: nat)
    ensures n <= |s| && (n < |s| ==> s[n] == '.') && forall i | 0 <= i < n :: s[i] != '.'
  {
    if s == [] || s[0] == '.' then 0 else 1 + FirstDot(s[1..])
  }

  function Split(s: string): (r: seq<string>)
    ensures r != []
  {
    var d := FirstDot(s);
    if d == |s| then [s] else [s[..d]] + Split(s[d + 1..])
  }

  function Join(parts: seq<string>): string
    requires parts != []
  {
    if |parts| == 1 then parts[0] else parts[0] + "." + Join(parts[1..])
  }

  /** `p` names `m` or a package above it. */
  predicate DottedPrefix(p: string, m: string) {
    p <= m && (|p| == |m| || m[|p|] == '.')
  }

  lemma DottedAfter(head: string, p: string, m: string)
    ensures DottedPrefix(head + "." + p, head + "." + m) <==> DottedPrefix(p, m)
  {
    var a, b := head + "." + p, head + "." + m;
    assert b[|head| + 1..] == m && a[|head| + 1..] == p;
    if a <= b {
      assert p == b[|head| + 1..|a|] == m[..|p|];
    }
    if p <= m {
      assert m == p + m[|p|..];
      assert b == a + m[|p|..];
    }
  }

  lemma {:induction false} JoinIsDotted(parts: seq<string>, i: nat)
    requires 1 <= i <= |parts|
    ensures DottedPrefix(Join(parts[..i]), Join(parts))
    decreases |parts|
  {
    var head, rest := parts[0], parts[1..];
    assert parts == [head] + rest;
    JoinCons(head, rest, i - 1);
    if i > 1 {
      JoinIsDotted(rest, i - 1);
      DottedAfter(head, Join(rest[..i - 1]), Join(rest));
    } else if |parts| > 1 {
      assert Join(parts) == head + ("." + Join(rest));
    }
  }

  lemma PrefixIsDotted(m: string, i: nat)
    requires 1 <= i <= |Split(m)|
    ensures DottedPrefix(Join(Split(m)[..i]), m)
  {
    JoinSplit(m);
    JoinIsDotted(Split(m), i);
  }

  // A dotted prefix that is not the first part goes past the first dot.
  lemma PastHead(head: string, rest: string, p: string) returns (p': string)
    requires DottedPrefix(p, head + "." + rest) && '.' !in head && p != head
    ensures p == head + "." + p' && DottedPrefix(p', rest)
  {
    var m := head + "." + rest;
    assert p == m[..|p|];
    assert forall i | 0 <= i < |head| :: m[i] == head[i] != '.';
    assert |p| != |head|;
    p' := p[|head| + 1..];
    assert p == head + "." + p';
    DottedAfter(head, p', rest);
  }

  lemma JoinCons(head: string, parts: seq<string>, k: nat)
    requires k <= |parts|
    ensures Join(([head] + parts)[..k + 1]) == if k == 0 then head else head + "." + Join(parts[..k])
  {
    assert ([head] + parts)[..k + 1] == [head] + parts[..k];
    assert ([head] + parts[..k])[1..] == parts[..k];
  }

  ghost predicate DotFree(parts: seq<string>) {
    forall i | 0 <= i < |parts| :: '.' !in parts[i]
  }

  lemma {:induction false} DottedJoin(parts: seq<string>, p: string) returns (i: nat)
    requires parts != [] && DotFree(parts) && DottedPrefix(p, Join(parts))
    ensures 1 <= i <= |parts| && Join(parts[..i]) == p
    decreases |parts|
  {
    var head, rest := parts[0], parts[1..];
    assert parts == [head] + rest;
    if |parts| == 1 || p == head {
      JoinCons(head, rest, 0);
      return 1;
    }
    var p' := PastHead(head, Join(rest), p);
    var k := DottedJoin(rest, p');
    JoinCons(head, rest, k);
    return k + 1;
  }

  /** Splitting and joining are inverse. */
  lemma {:induction false} JoinSplit(m: string)
    ensures Join(Split(m)) == m
    decreases |m|
  {
    var d := FirstDot(m);
    if d < |m| {
      JoinSplit(m[d + 1..]);
      JoinWhole(m[..d], Split(m[d + 1..]));
      assert m == m[..d] + "." + m[d + 1..];
    }
  }

  lemma HeadDotFree(m: string)
    ensures '.' !in m[..FirstDot(m)]
  {
  }

  lemma {:induction false} SplitDotFree(m: string)
    ensures DotFree(Split(m))
    decreases |m|
  {
    var d := FirstDot(m);
    HeadDotFree(m);
    if d < |m| {
      SplitDotFree(m[d + 1..]);
      DotFreeCons(m[..d], Split(m[d + 1..]));
    } else {
      assert m[..d] == m;
    }
  }

  lemma DotFreeCons(head: string, parts: seq<string>)
    requires '.' !in head && DotFree(parts)
    ensures DotFree([head] + parts)
  {
  }

  lemma JoinWhole(head: string, parts: seq<string>)
    requires parts != []
    ensures Join([head] + parts) == head + "." + Join(parts)
  {
    assert ([head] + parts)[1..] == parts;
  }

  lemma DottedIsPrefix(m: string, p: string) returns (i: nat)
    requires DottedPrefix(p, m)
    ensures 1 <= i <= |Split(m)| && Join(Split(m)[..i]) == p
  {
    JoinSplit(m);
    SplitDotFree(m);
    i := DottedJoin(Split(m), p);
  }

  // ── Prefixes of imported names ────────────────────────────────────────────────────────

  method AddPrefixes(m: string, expanded: set<string>) returns (out: set<string>)
    ensures forall p :: p in out <==> p in expanded || DottedPrefix(p, m)
  {
    out := expanded;
    var parts := Split(m);
    for i := 1 to |parts| + 1
      invariant forall p :: p in out <==> p in expanded || exists k | 1 <= k < i :: Join(parts[..k]) == p
    {
      out := out + {Join(parts[..i])};
    }
    forall p ensures p in out <==> p in expanded || DottedPrefix(p, m) {
      if DottedPrefix(p, m) {
        var k := DottedIsPrefix(m, p);
      }
      forall k | 1 <= k < |parts| + 1 ensures DottedPrefix(Join(parts[..k]), m) {
        PrefixIsDotted(m, k);
      }
    }
  }

  /** Every imported name and every package above it. */
  method ExpandPrefixes(modules: set<string>) returns (expanded: set<string>)
    ensures forall p :: p in expanded <==> exists m | m in modules :: DottedPrefix(p, m)
  {
    expanded := {};
    var pending := modules;
    while pending != {}
      invariant pending <= modules
      invariant forall p :: p in expanded <==> exists m | m in modules - pending :: DottedPrefix(p, m)
      decreases |pending|
    {
      var m :| m in pending;
      expanded := AddPrefixes(m, expanded);
      assert modules - (pending - {m}) == (modules - pending) + {m};
      pending := pending - {m};
    }
    assert modules - {} == modules;
  }

  // ── Modules of a changed file ─────────────────────────────────────────────────────────

  function LastDot(s: string): (n: nat)
    ensures n <= |s| && (n < |s| ==> s[n] == '.')
  {
    if s == [] then 0
    else if s[|s| - 1] == '.' then |s| - 1
    else
      var n := LastDot(s[..|s| - 1]);
      if n == |s| - 1 then |s| else n
  }

  // `with_extension("")`: a leading dot does not start an extension.
  function Stem(name: string): string {
    var d := LastDot(name);
    if d == 0 then name else name[..d]
  }

  // The dotted name's parts; `__init__` stands for its package.
  function ModuleParts(file: Path): Path {
    if file == [] then []
    else
      var last := Stem(file[|file| - 1]);
      if last == "__init__" then file[..|file| - 1] else file[..|file| - 1] + [last]
  }

  // `p` is the file's module or a package above it.
  predicate ModuleOf(file: Path, p: string) {
    exists k | 1 <= k <= |ModuleParts(file)| :: Join(ModuleParts(file)[..k]) == p
  }

  method FileToModules(file: Path) returns (modules: seq<string>)
    ensures |modules| == |ModuleParts(file)|
    ensures forall k | 0 <= k < |modules| :: modules[k] == Join(ModuleParts(file)[..|modules| - k])
  {
    var parts := ModuleParts(file);
    modules := [];
    for i := |parts| downto 0
      invariant |modules| == |parts| - i
      invariant forall k | 0 <= k < |modules| :: modules[k] == Join(parts[..|parts| - k])
    {
      modules := modules + [Join(parts[..i + 1])];
    }
  }

  lemma ModulesListed(file: Path, modules: seq<string>)
    requires |modules| == |ModuleParts(file)|
    requires forall k | 0 <= k < |modules| :: modules[k] == Join(ModuleParts(file)[..|modules| - k])
    ensures forall p :: p in modules <==> ModuleOf(file, p)
  {
    var n := |modules|;
    forall p ensures p in modules <==> ModuleOf(file, p) {
      if p in modules {
        var k :| 0 <= k < n && modules[k] == p;
        assert 1 <= n - k <= n && Join(ModuleParts(file)[..n - k]) == p;
      }
      if ModuleOf(file, p) {
        var k :| 1 <= k <= n && Join(ModuleParts(file)[..k]) == p;
        assert modules[n - k] == p;
      }
    }
  }

  lemma {:induction false} JoinShape(parts: Path)
    requires parts != []
    ensures Join(parts) == parts[0] || parts[0] + "." <= Join(parts)
  {
  }

  // A file matches an import as soon as its first part does.
  lemma FirstPartDecides(parts: Path, m: string)
    requires parts != []
    ensures (exists k | 1 <= k <= |parts| :: DottedPrefix(Join(parts[..k]), m)) <==> DottedPrefix(parts[0], m)
  {
    assert Join(parts[..1]) == parts[0];
    forall k | 1 <= k <= |parts| && DottedPrefix(Join(parts[..k]), m) ensures DottedPrefix(parts[0], m) {
      JoinShape(parts[..k]);
      var p := Join(parts[..k]);
      if parts[0] + "." <= p {
        assert parts[0] <= p <= m && m[|parts[0]|] == p[|parts[0]|] == '.';
      }
    }
  }

  /** With no dot in the file's first component, that is: the two have their first component in
      common. */
  lemma FirstComponentDecides(first: string, m: string)
    requires '.' !in first
    ensures DottedPrefix(first, m) <==> Split(m)[0] == first
  {
    var d := FirstDot(m);
    assert Split(m)[0] == m[..d];
    if DottedPrefix(first, m) {
      assert forall i | 0 <= i < |first| :: m[i] == first[i];
      assert |first| == d;
    }
  }

  // ── Imports of a test file ────────────────────────────────────────────────────────────

  // The names a statement itself imports absolutely.
  function ImportsHere(s: Stmt): set<string> {
    match s
    case Import(aliases) => set a | a in aliases :: a.source
    case ImportFrom(source, level, _) => if level == 0 && source.Some? then {source.value} else {}
    case _ => {}
  }

  // `t` is `s` or stands somewhere inside it.
  ghost predicate Occurs(t: Stmt, s: Stmt)
    decreases s, 1
  {
    t == s || exists i | 0 <= i < |CompoundLists(s)| :: OccursIn(t, CompoundLists(s)[i])
  }

  ghost predicate OccursIn(t: Stmt, body: seq<Stmt>)
    decreases body, 0
  {
    exists k | 0 <= k < |body| :: Occurs(t, body[k])
  }

  /** The statement is `import m`, with or without a name of its own, or `from m import ...`. */
  ghost predicate Names(t: Stmt, m: string) {
    || (t.Import? && exists a | a in t.aliases :: a.source == m)
    || (t.ImportFrom? && t.level == 0 && t.source == Some(m))
  }

  ghost predicate Imports(body: seq<Stmt>, m: string) {
    exists t :: OccursIn(t, body) && Names(t, m)
  }

  ghost predicate ImportsS(s: Stmt, m: string) {
    exists t :: Occurs(t, s) && Names(t, m)
  }

  lemma NamedHere(s: Stmt, m: string)
    ensures m in ImportsHere(s) <==> Names(s, m)
  {
  }

  /** The walk finds every absolute import, however deep it stands, and nothing else. */
  method CollectImports(s: Stmt, modules: set<string>) returns (out: set<string>)
    ensures forall m :: m in out <==> m in modules || ImportsS(s, m)
    decreases s, 1
  {
    out := modules + ImportsHere(s);
    var lists := CompoundLists(s);
    for i := 0 to |lists|
      invariant forall m :: m in out <==>
        m in modules || m in ImportsHere(s) || exists k | 0 <= k < i :: Imports(lists[k], m)
    {
      out := CollectAll(lists[i], out);
    }
    forall m ensures ImportsS(s, m) <==> m in ImportsHere(s) || exists k | 0 <= k < |lists| :: Imports(lists[k], m) {
      ImportsInside(s, m);
    }
  }

  lemma ImportsInside(s: Stmt, m: string)
    ensures ImportsS(s, m) <==> m in ImportsHere(s) || exists k | 0 <= k < |CompoundLists(s)| :: Imports(CompoundLists(s)[k], m)
  {
    NamedHere(s, m);
    if m in ImportsHere(s) {
      assert Occurs(s, s);
    }
  }

  method CollectAll(body: seq<Stmt>, modules: set<string>) returns (out: set<string>)
    ensures forall m :: m in out <==> m in modules || Imports(body, m)
    decreases body, 0
  {
    out := modules;
    for i := 0 to |body|
      invariant forall m :: m in out <==> m in modules || exists k | 0 <= k < i :: ImportsS(body[k], m)
    {
      out := CollectImports(body[i], out);
    }
  }

  // ── A test file against the changed sources ───────────────────────────────────────────

  ghost predicate ModulesOf(modules: set<string>, changed: seq<Path>) {
    forall p :: p in modules <==> exists c | c in changed :: ModuleOf(c, p)
  }

  method AddModules(file: Path, modules: set<string>) returns (out: set<string>)
    ensures forall p :: p in out <==> p in modules || ModuleOf(file, p)
  {
    var more := FileToModules(file);
    ModulesListed(file, more);
    out := modules + set m | m in more;
  }

  method ChangedModules(changed: seq<Path>) returns (modules: set<string>)
    ensures ModulesOf(modules, changed)
  {
    modules := {};
    for i := 0 to |changed|
      invariant ModulesOf(modules, changed[..i])
    {
      ghost var before := modules;
      modules := AddModules(changed[i], modules);
      OneMoreFile(before, modules, changed[..i], changed[i]);
      assert changed[..i] + [changed[i]] == changed[..i + 1];
    }
    assert changed[..|changed|] == changed;
  }

  lemma OneMoreFile(before: set<string>, after: set<string>, changed: seq<Path>, c: Path)
    requires ModulesOf(before, changed) && forall p :: p in after <==> p in before || ModuleOf(c, p)
    ensures ModulesOf(after, changed + [c])
  {
    forall p ensures p in after <==> exists d | d in changed + [c] :: ModuleOf(d, p) {
      assert c in changed + [c];
      if p in before {
        var d :| d in changed && ModuleOf(d, p);
        assert d in changed + [c];
      }
    }
  }

  /** The test imports, absolutely and at any depth, a name at or below the first component of
      a changed file. */
  ghost predicate ReachedByImport(body: seq<Stmt>, changed: seq<Path>) {
    exists c, m | c in changed :: ModuleParts(c) != [] && Imports(body, m) && DottedPrefix(ModuleParts(c)[0], m)
  }

  /** The analysis of one test file, unreadable ones included: prefix expansion on both sides
      comes down to the first component. */
  method AnalyseFile(stmts: Option<seq<Stmt>>, changed: seq<Path>) returns (affected: bool, matched: set<string>)
    ensures affected <==> matched != {}
    ensures affected <==> stmts.Some? && ReachedByImport(stmts.value, changed)
  {
    var changedModules := ChangedModules(changed);
    var modules := {};
    if stmts.Some? {
      modules := CollectAll(stmts.value, modules);
    }
    var imports := ExpandPrefixes(modules);
    matched := imports * changedModules;
    affected := matched != {};
    MatchedIffReached(stmts, changed, modules, imports, changedModules);
  }

  lemma MatchedIffReached(stmts: Option<seq<Stmt>>, changed: seq<Path>, modules: set<string>, imports: set<string>, changedModules: set<string>)
    requires forall m :: m in modules <==> stmts.Some? && Imports(stmts.value, m)
    requires forall p :: p in imports <==> exists m | m in modules :: DottedPrefix(p, m)
    requires ModulesOf(changedModules, changed)
    ensures imports * changedModules != {} <==> stmts.Some? && ReachedByImport(stmts.value, changed)
  {
    forall p | p in imports * changedModules ensures stmts.Some? && ReachedByImport(stmts.value, changed) {
      var m :| m in modules && DottedPrefix(p, m);
      var c :| c in changed && ModuleOf(c, p);
      FirstPartDecides(ModuleParts(c), m);
    }
    if stmts.Some? && ReachedByImport(stmts.value, changed) {
      var c, m :| c in changed && ModuleParts(c) != [] && Imports(stmts.value, m) && DottedPrefix(ModuleParts(c)[0], m);
      FirstPartIsModule(c);
      assert ModuleParts(c)[0] in imports * changedModules;
    }
  }

  lemma FirstPartIsModule(c: Path)
    requires ModuleParts(c) != []
    ensures ModuleOf(c, ModuleParts(c)[0])
  {
    assert Join(ModuleParts(c)[..1]) == ModuleParts(c)[0];
  }

  // ── Files as they are named ───────────────────────────────────────────────────────────

  lemma {:induction false} LastDotAt(name: string, ext: string)
    requires '.' !in ext
    ensures LastDot(name + "." + ext) == |name|
    decreases ext
  {
    var s := name + "." + ext;
    if ext == [] {
      assert s[|s| - 1] == '.';
    } else {
      var n := |ext| - 1;
      assert s[|s| - 1] == ext[n] && ext[n] in ext && s[..|s| - 1] == name + "." + ext[..n];
      LastDotAt(name, ext[..n]);
    }
  }

  /** `dirs/name.py` is the module `dirs.name`, and `dirs/__init__.py` the package `dirs`. */
  lemma PyFileParts(dirs: Path, name: string)
    requires name != []
    ensures ModuleParts(dirs + [name + ".py"]) == if name == "__init__" then dirs else dirs + [name]
  {
    var file := dirs + [name + ".py"];
    assert name + ".py" == name + "." + "py";
    LastDotAt(name, "py");
    assert (name + ".py")[..|name|] == name;
    assert Stem(file[|dirs|]) == name && file[..|dirs|] == dirs;
  }

  // The first component a Python file is imported by.
  ghost predicate ImportedAs(file: Path, first: string) {
    || (|file| >= 2 && file[0] == first)
    || (file == [first + ".py"] && first != [] && first != "__init__")
    || (file == [".py"] && first == ".py")
  }

  lemma DotPyParts(dirs: Path)
    ensures ModuleParts(dirs + [".py"]) == dirs + [".py"]
  {
    var file := dirs + [".py"];
    assert [] + "." + "py" == ".py";
    LastDotAt([], "py");
    assert Stem(".py") == ".py" && file[..|dirs|] == dirs && file[|dirs|] == ".py";
    assert ".py"[0] != "__init__"[0];
  }

  lemma FirstPartOfFile(dirs: Path, name: string, first: string)
    ensures ModuleParts(dirs + [name + ".py"]) != [] && ModuleParts(dirs + [name + ".py"])[0] == first <==> ImportedAs(dirs + [name + ".py"], first)
  {
    var file := dirs + [name + ".py"];
    if name == [] {
      DotPyParts(dirs);
      assert [] + ".py" == ".py";
    } else {
      PyFileParts(dirs, name);
    }
    if dirs == [] {
      assert file == [name + ".py"] && (name + ".py")[..|name|] == name;
      if file == [first + ".py"] {
        assert (first + ".py")[..|first|] == first && |first| == |name|;
      }
    } else {
      assert file[0] == dirs[0];
    }
  }

  // `m` is `p`, or lies below it.
  ghost predicate Below(m: string, p: string) {
    m == p || p + "." <= m
  }

  lemma DottedMeans(p: string, m: string)
    ensures DottedPrefix(p, m) <==> Below(m, p)
  {
    if DottedPrefix(p, m) && m != p {
      assert m[..|p| + 1] == p + ".";
    }
    if p + "." <= m {
      assert m[..|p|] == p && m[|p|] == (p + ".")[|p|];
    }
  }

  /** Some import of the test is of the file's first component, or of something below it. */
  ghost predicate ImportsFile(body: seq<Stmt>, file: Path) {
    exists first, m :: ImportedAs(file, first) && Imports(body, m) && Below(m, first)
  }

  lemma ImportsFileMeans(body: seq<Stmt>, dirs: Path, name: string)
    ensures var c := dirs + [name + ".py"];
            ImportsFile(body, c) <==> exists m :: ModuleParts(c) != [] && Imports(body, m) && DottedPrefix(ModuleParts(c)[0], m)
  {
    var c := dirs + [name + ".py"];
    if first, m :| ImportedAs(c, first) && Imports(body, m) && Below(m, first) {
      FirstPartOfFile(dirs, name, first);
      DottedMeans(first, m);
    }
    if m :| ModuleParts(c) != [] && Imports(body, m) && DottedPrefix(ModuleParts(c)[0], m) {
      FirstPartOfFile(dirs, name, ModuleParts(c)[0]);
      DottedMeans(ModuleParts(c)[0], m);
    }
  }
}
