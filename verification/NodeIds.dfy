/**
 Selecting tests by node ID, twice (`src/filter.rs`): before collection, where a file is dropped
 if none of its prescanned tests can match, and after it, where each collected item is matched.
 The first must never drop what the second would keep.
 */
module NodeIds {
  import opened Options
  import opened Paths
  import opened Grouping

  // ── Which targets are globs ───────────────────────────────────────────────────────────

  const VERBATIM := "\\\\?\\"

  function WithoutVerbatimPrefix(s: string): string {
    if VERBATIM <= s then s[|VERBATIM|..] else s
  }

  predicate HasWildcard(s: string) {
    '*' in WithoutVerbatimPrefix(s) || '?' in WithoutVerbatimPrefix(s)
  }

  // The item filter also takes a bracketed target for a glob; the prescan does not.
  predicate ContainsGlobChars(s: string) {
    HasWildcard(s) || '[' in WithoutVerbatimPrefix(s)
  }

  // ── Prefix matching ───────────────────────────────────────────────────────────────────

  // `id` continues `target` with a parameter or a nested name.
  predicate Continues(id: string, target: string) {
    target <= id && (id[|target|..] != [] && (id[|target|] == '[' || "::" <= id[|target|..]))
  }

  predicate MatchesNodeIdPrefix(id: string, target: string, bidirectional: bool) {
    id == target || Continues(id, target) || (bidirectional && Continues(target, id))
  }

  // ── Escaped brackets are literal ──────────────────────────────────────────────────────

  function EscapedChar(c: char): string {
    if c == '[' then "[[]" else if c == ']' then "[]]" else [c]
  }

  function Escaped(id: string): string {
    if id == [] then [] else Escaped(id[..|id| - 1]) + EscapedChar(id[|id| - 1])
  }

  method EscapeNodeIdBrackets(id: string) returns (out: string)
    ensures out == Escaped(id)
  {
    out := [];
    for i := 0 to |id|
      invariant out == Escaped(id[..i])
    {
      assert id[..i + 1][..i] == id[..i];
      out := out + EscapedChar(id[i]);
    }
    assert id[..|id|] == id;
  }

  // Alternatives and escapes, which the glob syntax has beside wildcards and brackets.
  predicate Plain(s: string) {
    '{' !in s && '}' !in s && '\\' !in s
  }

  // Two stars in a row cross directories in a way of their own.
  predicate DoubleStar(s: string) {
    exists i | 0 <= i < |s| - 1 :: s[i] == '*' && s[i + 1] == '*'
  }

  datatype Token = Literal(c: char) | OneOf(negated: bool, members: string) | AnyOne | AnyMany

  // The members of a bracket expression: the first is taken as it is, then up to `]`.
  function Members(s: string): Option<(string, string)>
    ensures Members(s).Some? ==> |Members(s).value.1| < |s|
  {
    if s == [] then None
    else
      var more := Rest(s[1..]);
      if more.None? then None else Some(([s[0]] + more.value.0, more.value.1))
  }

  function Rest(s: string): Option<(string, string)>
    ensures Rest(s).Some? ==> |Rest(s).value.1| < |s|
  {
    if s == [] then None
    else if s[0] == ']' then Some(([], s[1..]))
    else
      var more := Rest(s[1..]);
      if more.None? then None else Some(([s[0]] + more.value.0, more.value.1))
  }

  // A glob without alternatives and escapes; none if a bracket is not closed.
  function Parse(glob: string): Option<seq<Token>>
    decreases |glob|
  {
    if glob == [] then Some([])
    else if glob[0] == '*' then Then(AnyMany, Parse(glob[1..]))
    else if glob[0] == '?' then Then(AnyOne, Parse(glob[1..]))
    else if glob[0] != '[' then Then(Literal(glob[0]), Parse(glob[1..]))
    else
      var negated := glob[1..] != [] && (glob[1] == '!' || glob[1] == '^');
      var class_ := Members(if negated then glob[2..] else glob[1..]);
      if class_.None? then None else Then(OneOf(negated, class_.value.0), Parse(class_.value.1))
  }

  function Then(t: Token, rest: Option<seq<Token>>): Option<seq<Token>> {
    if rest.None? then None else Some([t] + rest.value)
  }

  predicate Accepts(t: Token, c: char) {
    match t
    case Literal(d) => c == d
    case OneOf(negated, members) => (c in members) != negated
    case AnyOne => true
    case AnyMany => true
  }

  predicate Match(tokens: seq<Token>, s: string)
    decreases |tokens| + |s|
  {
    if tokens == [] then s == []
    else if tokens[0].AnyMany? then Match(tokens[1..], s) || (s != [] && Match(tokens, s[1..]))
    else s != [] && Accepts(tokens[0], s[0]) && Match(tokens[1..], s[1..])
  }

  predicate GlobMatches(glob: string, s: string) {
    Parse(glob).Some? && Match(Parse(glob).value, s)
  }

  function EscapedToken(c: char): Token {
    if c == '[' || c == ']' then OneOf(false, [c])
    else if c == '*' then AnyMany
    else if c == '?' then AnyOne
    else Literal(c)
  }

  function Tokens(id: string): seq<Token> {
    seq(|id|, i requires 0 <= i < |id| => EscapedToken(id[i]))
  }

  lemma ParseEscapedChar(c: char, rest: string)
    ensures Parse(EscapedChar(c) + rest) == Then(EscapedToken(c), Parse(rest))
  {
    var glob := EscapedChar(c) + rest;
    if c == '[' || c == ']' {
      assert glob[1..][1..] == "]" + rest && glob[1..][0] == c;
      assert Rest("]" + rest) == Some(([], rest)) by {
        assert ("]" + rest)[1..] == rest;
      }
      assert Members(glob[1..]) == Some(([c] + [], rest)) && [c] + [] == [c];
    } else {
      assert glob[1..] == rest;
    }
  }

  lemma {:induction false} ParseEscapedThen(id: string, rest: string)
    ensures Parse(Escaped(id) + rest) == if Parse(rest).None? then None else Some(Tokens(id) + Parse(rest).value)
    decreases id
  {
    if id == [] {
      assert Escaped(id) + rest == rest && Tokens(id) == [];
      assert Parse(rest).Some? ==> [] + Parse(rest).value == Parse(rest).value;
    } else {
      var n := |id| - 1;
      var c := id[n];
      EscapedSnoc(id, rest);
      ParseEscapedThen(id[..n], EscapedChar(c) + rest);
      ParseEscapedChar(c, rest);
      if Parse(rest).Some? {
        TokensSnoc(id, Parse(rest).value);
      }
    }
  }

  lemma EscapedSnoc(id: string, rest: string)
    requires id != []
    ensures Escaped(id) + rest == Escaped(id[..|id| - 1]) + (EscapedChar(id[|id| - 1]) + rest)
  {
  }

  lemma TokensSnoc(id: string, tokens: seq<Token>)
    requires id != []
    ensures Tokens(id[..|id| - 1]) + ([EscapedToken(id[|id| - 1])] + tokens) == Tokens(id) + tokens
  {
  }

  /** Escaping leaves wildcards alone and makes every bracket stand for itself. */
  lemma ParseEscaped(id: string)
    ensures Parse(Escaped(id)) == Some(Tokens(id))
  {
    ParseEscapedThen(id, []);
    assert Escaped(id) + [] == Escaped(id) && Tokens(id) + [] == Tokens(id);
  }

  lemma {:induction false} TokensMatchThemselves(id: string, s: string)
    requires '*' !in id && '?' !in id
    ensures Match(Tokens(id), s) <==> s == id
  {
    if id == [] {
    } else {
      assert id[0] in id && forall c | c in id[1..] :: c in id;
      assert Tokens(id)[1..] == Tokens(id[1..]) && Tokens(id)[0] == EscapedToken(id[0]);
      if s != [] {
        TokensMatchThemselves(id[1..], s[1..]);
        assert id == [id[0]] + id[1..] && s == [s[0]] + s[1..];
      }
    }
  }

  /** Without wildcards, the escaped ID matches that ID and nothing else. */
  lemma EscapedMatchesItself(id: string, s: string)
    requires '*' !in id && '?' !in id
    ensures GlobMatches(Escaped(id), s) <==> s == id
  {
    ParseEscaped(id);
    TokensMatchThemselves(id, s);
  }

  // ── The two filters ───────────────────────────────────────────────────────────────────

  // The glob engine. All that is known of it is what it makes of an escaped target without
  // alternatives, escapes and double stars.
  type Engine = (string, string) -> bool

  ghost predicate Globs(engine: Engine) {
    forall t, s | Plain(t) && !DoubleStar(t) :: engine(Escaped(t), s) == GlobMatches(Escaped(t), s)
  }

  // An item's ID against one target, after collection.
  predicate ItemMatches(engine: Engine, id: string, target: string) {
    if ContainsGlobChars(target) then engine(Escaped(target), id) else MatchesNodeIdPrefix(id, target, false)
  }

  // A prescanned test's ID against one target, before it.
  predicate PrescanMatches(engine: Engine, id: string, target: string) {
    if HasWildcard(target) then engine(Escaped(target), id) else MatchesNodeIdPrefix(id, target, true)
  }

  datatype PrescanItem = PrescanItem(className: Option<string>, fnName: string)

  // A path as it stands in a node ID.
  function PathText(path: Path): string {
    if path == [] then []
    else if |path| == 1 then path[0]
    else PathText(path[..|path| - 1]) + "/" + path[|path| - 1]
  }

  // A text taken apart at its slashes.
  function Segments(text: string): (r: seq<string>)
    ensures r != []
  {
    if text == [] then [[]]
    else
      var init, c := Segments(text[..|text| - 1]), text[|text| - 1];
      if c == '/' then init + [[]] else init[..|init| - 1] + [init[|init| - 1] + [c]]
  }

  lemma {:induction false} SegmentsGrow(text: string, more: string)
    requires '/' !in more
    ensures var r := Segments(text); Segments(text + more) == r[..|r| - 1] + [r[|r| - 1] + more]
    decreases more
  {
    var r := Segments(text);
    if more == [] {
      assert text + more == text && r[|r| - 1] + more == r[|r| - 1];
    } else {
      var n := |more| - 1;
      SegmentsGrow(text, more[..n]);
      assert (text + more)[..|text| + n] == text + more[..n] && (text + more)[|text| + n] == more[n];
      assert more[n] in more;
      assert r[|r| - 1] + more[..n] + [more[n]] == r[|r| - 1] + more;
    }
  }

  lemma SlashAdds(text: string)
    ensures Segments(text + "/") == Segments(text) + [[]]
  {
    assert (text + "/")[..|text|] == text;
  }

  lemma OneComponent(c: string)
    requires '/' !in c
    ensures Segments(c) == [c]
  {
    SegmentsGrow([], c);
    assert [] + c == c && Segments([]) == [[]];
  }

  lemma OneMoreComponent(dir: string, c: string)
    requires '/' !in c
    ensures Segments(dir + "/" + c) == Segments(dir) + [c]
  {
    var r := Segments(dir) + [[]];
    SlashAdds(dir);
    SegmentsGrow(dir + "/", c);
    assert r[..|r| - 1] == Segments(dir) && r[|r| - 1] + c == c;
  }

  /** A path's text, taken apart at its slashes, is the path again. */
  lemma {:induction false} PathTextRoundTrip(path: Path)
    requires path != [] && forall c | c in path :: '/' !in c
    ensures Segments(PathText(path)) == path
  {
    var n := |path| - 1;
    var last := path[n];
    assert last in path && path == path[..n] + [last];
    if n == 0 {
      OneComponent(last);
    } else {
      PathTextRoundTrip(path[..n]);
      OneMoreComponent(PathText(path[..n]), last);
    }
  }

  function PrescanNodeId(path: Path, item: PrescanItem): string {
    if item.className.Some? then PathText(path) + "::" + item.className.value + "::" + item.fnName
    else PathText(path) + "::" + item.fnName
  }

  predicate Selects(engine: Engine, item: TestItem, targets: seq<string>) {
    exists t | t in targets :: ItemMatches(engine, item.nodeId, t)
  }

  // `filter_by_node_ids`: items of files no target names pass through.
  predicate ItemKept(engine: Engine, item: TestItem, targets: seq<string>, sources: set<Path>) {
    || targets == []
    || (sources != {} && item.modulePath !in sources)
    || Selects(engine, item, targets)
  }

  // `file_matches_node_ids`
  predicate FileMatches(engine: Engine, items: seq<PrescanItem>, path: Path, targets: seq<string>) {
    targets == [] || exists item, t | item in items && t in targets :: PrescanMatches(engine, PrescanNodeId(path, item), t)
  }

  // The node-ID part of `file_passes_all_filters`.
  predicate FileKept(engine: Engine, items: seq<PrescanItem>, path: Path, targets: seq<string>, sources: set<Path>) {
    targets == [] || !(sources == {} || path in sources) || FileMatches(engine, items, path, targets)
  }

  // ── The prescan keeps what the item filter keeps ──────────────────────────────────────

  function Bracketed(base: string, param: Option<string>): string {
    if param.Some? then base + "[" + param.value + "]" else base
  }

  // Whatever either of them continues with, a target that selects a test selects its base.
  lemma PrefixReachesBase(base: string, param: Option<string>, target: string)
    requires MatchesNodeIdPrefix(Bracketed(base, param), target, false)
    ensures MatchesNodeIdPrefix(base, target, true)
  {
    var id := Bracketed(base, param);
    assert base <= id && id == base + id[|base|..];
    assert id[|base|..] != [] ==> id[|base|] == '[';
    if |target| < |base| {
      assert target <= base by {
        assert target == id[..|target|] == base[..|target|];
      }
      if id[|target|] != '[' {
        assert id[|target|] == id[|target|..][0] == ':' && id[|target| + 1] == id[|target|..][1] == ':';
        assert base[|target|..][0] == ':' && base[|target|..][1] == ':';
      }
    } else if |target| == |base| {
      assert target == id[..|target|] == base;
    } else {
      assert base == target[..|base|] && target[|base|] == id[|base|] == '[';
    }
  }

  lemma NoVerbatim(target: string)
    requires Plain(target)
    ensures WithoutVerbatimPrefix(target) == target
  {
    assert target != [] && target[0] == VERBATIM[0] ==> '\\' in target;
  }

  // ── What a literal target selects ─────────────────────────────────────────────────────

  // The target is `text`, possibly behind the prefix of a verbatim path.
  ghost predicate Reads(target: string, text: string) {
    target == "\\\\?\\" + text || (target == text && !("\\\\?\\" <= text))
  }

  // `id` is `target`, or goes on with a parameter or a nested name.
  ghost predicate AtOrBelow(id: string, target: string) {
    || id == target
    || (exists rest :: id == target + "[" + rest)
    || (exists rest :: id == target + "::" + rest)
  }

  lemma ContinuesMeans(id: string, target: string)
    ensures id == target || Continues(id, target) <==> AtOrBelow(id, target)
  {
    if Continues(id, target) {
      var tail := id[|target|..];
      assert id == target + tail;
      if tail[0] == '[' {
        assert id == target + "[" + tail[1..];
      } else {
        assert tail == "::" + tail[2..];
        assert id == target + "::" + tail[2..];
      }
    }
    if rest :| id == target + "[" + rest {
      assert id[|target|..] == "[" + rest && id[..|target|] == target;
    }
    if rest :| id == target + "::" + rest {
      assert id[|target|..] == "::" + rest && id[..|target|] == target;
    }
  }

  lemma VerbatimRead(target: string, text: string)
    requires Reads(target, text)
    ensures WithoutVerbatimPrefix(target) == text
  {
  }

  /** A target without wildcards and brackets, for the item filter: the test itself, all its
      parameters, and everything nested in it; a class its methods, a file its tests. */
  lemma LiteralTargetItems(engine: Engine, id: string, target: string, text: string)
    requires Reads(target, text) && '*' !in text && '?' !in text && '[' !in text
    ensures ItemMatches(engine, id, target) <==> AtOrBelow(id, target)
  {
    VerbatimRead(target, text);
    ContinuesMeans(id, target);
  }

  /** For the prescan, brackets make no glob, and the other way round counts too. */
  lemma LiteralTargetPrescan(engine: Engine, id: string, target: string, text: string)
    requires Reads(target, text) && '*' !in text && '?' !in text
    ensures PrescanMatches(engine, id, target) <==> AtOrBelow(id, target) || AtOrBelow(target, id)
  {
    VerbatimRead(target, text);
    ContinuesMeans(id, target);
    ContinuesMeans(target, id);
  }

  /** Any other target is put to the glob engine, its brackets escaped: by both filters if it has a
      wildcard, by the item filter alone if it has only a bracket. */
  lemma GlobTarget(engine: Engine, id: string, target: string, text: string)
    requires Reads(target, text)
    ensures '*' in text || '?' in text || '[' in text ==> ItemMatches(engine, id, target) == engine(Escaped(target), id)
    ensures '*' in text || '?' in text ==> PrescanMatches(engine, id, target) == engine(Escaped(target), id)
  {
    VerbatimRead(target, text);
  }

  // ── Class targets ─────────────────────────────────────────────────────────────────────

  // A name as the language has it, as far as it matters here.
  predicate PlainName(name: string) {
    forall c | c in name :: c != ':' && c != '[' && c != '*' && c != '?'
  }

  // A name goes on until something that is in no name.
  lemma NameEnds(a: string, r: string, b: string, s: string)
    requires PlainName(b) && s == a + r && b <= s && (r == [] || r[0] == ':' || r[0] == '[')
    ensures |b| <= |a|
  {
    if r != [] {
      var p := a + [r[0]];
      assert p <= s && p[|a|] == r[0];
      PrefixesNest(p, b, s);
      PrefixHolds(p, b, r[0]);
    }
  }

  // So a name is told apart by what may follow it.
  lemma NamesApart(a: string, r: string, b: string, q: string)
    requires PlainName(a) && PlainName(b) && a + r == b + q
    requires (r == [] || r[0] == ':' || r[0] == '[') && (q == [] || q[0] == ':' || q[0] == '[')
    ensures a == b && r == q
  {
    var s := a + r;
    assert s[..|a|] == a && s[..|b|] == b && s[|a|..] == r && s[|b|..] == q;
    NameEnds(a, r, b, s);
    NameEnds(b, q, a, s);
  }

  // What stands behind a file's own part of an ID.
  lemma BehindFile(file: string, a: string, b: string, sep: string, rest: string)
    ensures file + "::" + a == file + "::" + b + sep + rest <==> a == b + sep + rest
  {
    var x, y := file + "::" + a, file + "::" + b + sep + rest;
    assert x[|file| + 2..] == a && y[|file| + 2..] == b + sep + rest;
  }

  lemma BelowClass(file: string, cls: string, name: string, tail: string)
    requires PlainName(cls) && PlainName(name) && (tail == [] || tail[0] == ':' || tail[0] == '[')
    ensures AtOrBelow(file + "::" + (name + tail), file + "::" + cls) <==> name == cls && (tail == [] || tail[0] == '[' || "::" <= tail)
  {
    var id, target := file + "::" + (name + tail), file + "::" + cls;
    if id == target {
      BehindFile(file, name + tail, cls, "", "");
      NamesApart(name, tail, cls, "");
    }
    if rest :| id == target + "[" + rest {
      BehindFile(file, name + tail, cls, "[", rest);
      assert cls + "[" + rest == cls + ("[" + rest);
      NamesApart(name, tail, cls, "[" + rest);
    }
    if rest :| id == target + "::" + rest {
      BehindFile(file, name + tail, cls, "::", rest);
      assert cls + "::" + rest == cls + ("::" + rest);
      NamesApart(name, tail, cls, "::" + rest);
    }
    if name == cls && tail != [] && tail[0] == '[' {
      assert tail == "[" + tail[1..] && id == target + "[" + tail[1..];
    }
    if name == cls && "::" <= tail {
      assert tail == "::" + tail[2..] && id == target + "::" + tail[2..];
    }
  }

  function ParamText(param: Option<string>): string {
    if param.Some? then "[" + param.value + "]" else ""
  }

  // The item of a method of a class, and of a function of its own.
  function MethodItem(path: Path, cls: string, fn: string, param: Option<string>): TestItem {
    TestItem(PathText(path) + "::" + cls + "::" + fn + ParamText(param), path)
  }

  function FunctionItem(path: Path, fn: string, param: Option<string>): TestItem {
    TestItem(PathText(path) + "::" + fn + ParamText(param), path)
  }

  /** A target that names a class, for the item filter: it keeps every method of the class with
      every parameter, no method of another class, and no function but one of the same name. */
  lemma ClassTargetItems(engine: Engine, path: Path, cls: string, name: string, fn: string, param: Option<string>, sources: set<Path>)
    requires PlainName(cls) && PlainName(name) && (sources == {} || path in sources)
    requires forall c | c in PathText(path) :: c != '[' && c != '*' && c != '?'
    ensures ItemKept(engine, MethodItem(path, name, fn, param), [PathText(path) + "::" + cls], sources) <==> name == cls
    ensures ItemKept(engine, FunctionItem(path, name, param), [PathText(path) + "::" + cls], sources) <==> name == cls
  {
    MethodText(PathText(path), name, fn, ParamText(param));
    NamedKept(engine, path, cls, name, "::" + fn + ParamText(param), sources);
    FunctionText(PathText(path), name, ParamText(param));
    NamedKept(engine, path, cls, name, ParamText(param), sources);
  }

  lemma MethodText(file: string, name: string, fn: string, param: string)
    ensures file + "::" + name + "::" + fn + param == file + "::" + (name + ("::" + fn + param))
  {
  }

  lemma FunctionText(file: string, name: string, param: string)
    ensures file + "::" + name + param == file + "::" + (name + param)
  {
  }

  lemma NamedKept(engine: Engine, path: Path, cls: string, name: string, tail: string, sources: set<Path>)
    requires PlainName(cls) && PlainName(name) && (sources == {} || path in sources)
    requires forall c | c in PathText(path) :: c != '[' && c != '*' && c != '?'
    requires tail == [] || tail[0] == '[' || "::" <= tail
    ensures ItemKept(engine, TestItem(PathText(path) + "::" + (name + tail), path), [PathText(path) + "::" + cls], sources) <==> name == cls
  {
    var file, target := PathText(path), PathText(path) + "::" + cls;
    PlainTarget(file, cls);
    BelowClass(file, cls, name, tail);
    LiteralTargetItems(engine, file + "::" + (name + tail), target, target);
    assert target in [target];
  }

  lemma PlainTarget(file: string, cls: string)
    requires PlainName(cls) && forall c | c in file :: c != '[' && c != '*' && c != '?'
    ensures var target := file + "::" + cls;
            Reads(target, target) && '*' !in target && '?' !in target && '[' !in target
  {
    var target := file + "::" + cls;
    assert forall c | c in target :: c in file || c == ':' || c in cls;
    assert "\\\\?\\"[2] == '?';
    PrefixHolds("\\\\?\\", target, '?');
  }

  /** And for the prescan: it keeps the file exactly if a test of that class, or a function of that
      name, stands in it. */
  lemma ClassTargetFile(engine: Engine, items: seq<PrescanItem>, path: Path, cls: string, sources: set<Path>)
    requires PlainName(cls) && (sources == {} || path in sources)
    requires forall c | c in PathText(path) :: c != '[' && c != '*' && c != '?'
    requires forall item | item in items :: PlainName(item.fnName) && (item.className.Some? ==> PlainName(item.className.value))
    ensures FileKept(engine, items, path, [PathText(path) + "::" + cls], sources) <==>
      exists item | item in items :: item.className == Some(cls) || (item.className.None? && item.fnName == cls)
  {
    var file, target := PathText(path), PathText(path) + "::" + cls;
    PlainTarget(file, cls);
    forall item | item in items
      ensures PrescanMatches(engine, PrescanNodeId(path, item), target) <==>
        item.className == Some(cls) || (item.className.None? && item.fnName == cls)
    {
      PrescannedClass(engine, path, item, cls);
    }
    assert target in [target];
  }

  lemma PrescannedClass(engine: Engine, path: Path, item: PrescanItem, cls: string)
    requires PlainName(cls) && PlainName(item.fnName) && (item.className.Some? ==> PlainName(item.className.value))
    requires forall c | c in PathText(path) :: c != '[' && c != '*' && c != '?'
    ensures PrescanMatches(engine, PrescanNodeId(path, item), PathText(path) + "::" + cls) <==>
      item.className == Some(cls) || (item.className.None? && item.fnName == cls)
  {
    var file, target := PathText(path), PathText(path) + "::" + cls;
    var name := if item.className.Some? then item.className.value else item.fnName;
    var tail := if item.className.Some? then "::" + item.fnName else "";
    var id := PrescanNodeId(path, item);
    assert id == file + "::" + (name + tail);
    PlainTarget(file, cls);
    LiteralTargetPrescan(engine, id, target, target);
    BelowClass(file, cls, name, tail);
    assert target == file + "::" + (cls + []);
    AboveName(file, cls, name + tail);
  }

  // A class is nothing nested in what stands in it.
  lemma AboveName(file: string, cls: string, more: string)
    requires PlainName(cls)
    ensures AtOrBelow(file + "::" + cls, file + "::" + more) ==> cls == more
  {
    var id, target := file + "::" + cls, file + "::" + more;
    if id == target {
      BehindFile(file, cls, more, "", "");
    }
    if rest :| id == target + "[" + rest {
      BehindFile(file, cls, more, "[", rest);
      assert (more + "[")[|more|] == '[' && more + "[" <= more + "[" + rest;
      PrefixHolds(more + "[", cls, '[');
    }
    if rest :| id == target + "::" + rest {
      BehindFile(file, cls, more, "::", rest);
      assert (more + "::")[|more|] == ':' && more + "::" <= more + "::" + rest;
      PrefixHolds(more + "::", cls, ':');
    }
  }

  /** Nothing is dropped for want of a target, nor in a file that no target names. */
  lemma UntargetedKept(engine: Engine, item: TestItem, items: seq<PrescanItem>, targets: seq<string>, sources: set<Path>)
    requires targets == [] || (sources != {} && item.modulePath !in sources)
    ensures ItemKept(engine, item, targets, sources) && FileKept(engine, items, item.modulePath, targets, sources)
  {
  }

  /** Several targets keep what any of them keeps. */
  lemma TargetsAdd(engine: Engine, item: TestItem, items: seq<PrescanItem>, path: Path, targets: seq<string>, sources: set<Path>)
    requires targets != []
    ensures ItemKept(engine, item, targets, sources) <==> exists t | t in targets :: ItemKept(engine, item, [t], sources)
    ensures FileKept(engine, items, path, targets, sources) <==> exists t | t in targets :: FileKept(engine, items, path, [t], sources)
  {
    assert targets[0] in targets;
    assert forall t | t in targets :: t in [t];
    if item', t :| item' in items && t in targets && PrescanMatches(engine, PrescanNodeId(path, item'), t) {
      assert FileMatches(engine, items, path, [t]);
    }
  }

  // ── Glob targets ──────────────────────────────────────────────────────────────────────

  // What can stand for the bracket a parameter opens with, and for the one it ends with.
  predicate Opens(c: char) {
    c == '*' || c == '?' || c == '['
  }

  predicate Closes(c: char) {
    c == '*' || c == '?' || c == ']'
  }

  predicate Wildcards(s: string) {
    '*' in s || '?' in s
  }

  // The glob as far as a bare ID could match it, if the bracket opens at `i`.
  function Cut(target: string, i: nat): string
    requires i < |target|
  {
    if target[i] == '*' then target[..i + 1] else target[..i]
  }

  // The bare ID is matched so far, and the rest of the glob takes a parameter in brackets.
  ghost predicate CutMatches(target: string, i: nat, base: string) {
    && i < |target| - 1 && Opens(target[i]) && Closes(target[|target| - 1])
    && GlobMatches(Escaped(Cut(target, i)), base)
  }

  lemma {:induction false} MatchAfterLiteral(a: string, tokens: seq<Token>, s: string)
    requires '*' !in a && '?' !in a
    ensures Match(Tokens(a) + tokens, a + s) <==> Match(tokens, s)
  {
    if a == [] {
      assert Tokens(a) + tokens == tokens && a + s == s;
    } else {
      assert a[0] in a && forall c | c in a[1..] :: c in a;
      assert (Tokens(a) + tokens)[1..] == Tokens(a[1..]) + tokens && (a + s)[1..] == a[1..] + s;
      MatchAfterLiteral(a[1..], tokens, s);
    }
  }

  lemma {:induction false} LiteralPrefix(a: string, tokens: seq<Token>, s: string)
    requires '*' !in a && '?' !in a && Match(Tokens(a) + tokens, s)
    ensures a <= s && Match(tokens, s[|a|..])
  {
    if a == [] {
      assert Tokens(a) + tokens == tokens && s[0..] == s;
    } else {
      assert a[0] in a && forall c | c in a[1..] :: c in a;
      assert (Tokens(a) + tokens)[1..] == Tokens(a[1..]) + tokens && (Tokens(a) + tokens)[0] == EscapedToken(a[0]);
      LiteralPrefix(a[1..], tokens, s[1..]);
      assert s[1..][|a| - 1..] == s[|a|..];
    }
  }

  // What a glob matches ends with something its last token accepts.
  lemma {:induction false} LastToken(tokens: seq<Token>, s: string)
    requires tokens != [] && !tokens[|tokens| - 1].AnyMany? && Match(tokens, s)
    ensures s != [] && Accepts(tokens[|tokens| - 1], s[|s| - 1])
    decreases |tokens| + |s|
  {
    if |tokens| > 1 {
      if tokens[0].AnyMany? {
        if Match(tokens[1..], s) {
          LastToken(tokens[1..], s);
        } else {
          LastToken(tokens, s[1..]);
        }
      } else {
        LastToken(tokens[1..], s[1..]);
      }
    } else {
      assert tokens[1..] == [];
    }
  }

  lemma {:induction false} StarReaches(tokens: seq<Token>, p: string, s: string)
    requires tokens != [] && tokens[0].AnyMany? && Match(tokens[1..], s)
    ensures Match(tokens, p + s)
    decreases p
  {
    if p == [] {
      assert p + s == s;
    } else {
      assert (p + s)[1..] == p[1..] + s;
      StarReaches(tokens, p[1..], s);
    }
  }

  lemma PrefixesNest(p: string, q: string, s: string)
    ensures p <= s && q <= s && |p| <= |q| ==> p <= q
    ensures p <= q && q <= s ==> p <= s
  {
  }

  lemma PrefixHolds(p: string, s: string, c: char)
    ensures p <= s && c in p ==> c in s
  {
  }

  lemma SuffixHolds(s: string, k: nat, c: char)
    requires k <= |s|
    ensures s[k..] != [] && s[k..][0] == c ==> c in s
  {
  }

  lemma {:induction false} MatchConcat(a: seq<Token>, b: seq<Token>, s: string, t: string)
    requires Match(a, s) && Match(b, t)
    ensures Match(a + b, s + t)
    decreases |a| + |s|
  {
    if a == [] {
      assert a + b == b && s + t == t;
    } else {
      assert (a + b)[1..] == a[1..] + b && (a + b)[0] == a[0];
      assert s != [] ==> (s + t)[1..] == s[1..] + t && (s + t)[0] == s[0];
      if a[0].AnyMany? && !Match(a[1..], s) {
        MatchConcat(a, b, s[1..], t);
      } else if a[0].AnyMany? {
        MatchConcat(a[1..], b, s, t);
      } else {
        MatchConcat(a[1..], b, s[1..], t);
      }
    }
  }

  // Where the tokens that match the first part end; a star may reach into the second.
  ghost predicate SplitAt(tokens: seq<Token>, u: string, v: string, i: nat) {
    && i <= |tokens| && Match(tokens[..i], u)
    && (Match(tokens[i..], v) || (i > 0 && tokens[i - 1].AnyMany? && Match(tokens[i - 1..], v)))
  }

  lemma {:induction false} MatchSplits(tokens: seq<Token>, u: string, v: string) returns (i: nat)
    requires Match(tokens, u + v)
    ensures SplitAt(tokens, u, v, i)
    decreases |tokens| + |u|
  {
    if u == [] {
      i := 0;
      assert u + v == v && tokens[0..] == tokens && tokens[..0] == [];
    } else {
      assert (u + v)[1..] == u[1..] + v && (u + v)[0] == u[0];
      if tokens[0].AnyMany? && !Match(tokens[1..], u + v) {
        i := MatchSplits(tokens, u[1..], v);
        i := StarSplits(tokens, u, v, i);
      } else if tokens[0].AnyMany? {
        var k := MatchSplits(tokens[1..], u, v);
        i := k + 1;
        SplitShifts(tokens, k);
      } else {
        var k := MatchSplits(tokens[1..], u[1..], v);
        i := k + 1;
        SplitShifts(tokens, k);
      }
    }
  }

  lemma SplitShifts(tokens: seq<Token>, k: nat)
    requires tokens != [] && k <= |tokens| - 1
    ensures tokens[..k + 1][1..] == tokens[1..][..k] && tokens[..k + 1][0] == tokens[0]
    ensures tokens[1..][k..] == tokens[k + 1..] && (k > 0 ==> tokens[1..][k - 1..] == tokens[k..] && tokens[1..][k - 1] == tokens[k])
  {
  }

  // The leading star takes one character more.
  lemma StarSplits(tokens: seq<Token>, u: string, v: string, k: nat) returns (i: nat)
    requires tokens != [] && tokens[0].AnyMany? && u != [] && SplitAt(tokens, u[1..], v, k)
    ensures SplitAt(tokens, u, v, i)
  {
    if k > 0 {
      i := k;
      assert tokens[..k][0] == tokens[0];
    } else {
      i := 1;
      assert tokens[..0] == [] && u[1..] == [] && tokens[0..] == tokens;
      assert tokens[..1] == [AnyMany] && [AnyMany][1..] == [];
      assert Match(tokens[..1], u) by {
        assert Match([], []) && Match([AnyMany], []);
      }
    }
  }

  // Which bare IDs a glob matches with some parameter.
  lemma ParameterNeedsCut(target: string, base: string, param: string)
    requires Match(Tokens(target), Bracketed(base, Some(param)))
    ensures (exists i: nat :: CutMatches(target, i, base)) || Match(Tokens(target), base)
  {
    var tokens, v := Tokens(target), "[" + param + "]";
    assert Bracketed(base, Some(param)) == base + v;
    var n := |target| - 1;
    ClosesLast(target, base + v);
    var k := MatchSplits(tokens, base, v);
    assert Tokens(target[..k]) == tokens[..k];
    if Match(tokens[k..], v) {
      OpensFirst(target, k, v);
      if target[k] == '*' {
        assert tokens[..k + 1] == tokens[..k] + [AnyMany] && base + [] == base;
        assert Match([AnyMany], []) by {
          assert [AnyMany][1..] == [];
        }
        MatchConcat(tokens[..k], [AnyMany], base, []);
        CutReached(target, k, base);
      } else {
        CutReached(target, k, base);
      }
    } else {
      assert target[k - 1] == '*';
      CutReached(target, k - 1, base);
    }
  }

  // The last character of a glob that matches something in brackets can close one.
  lemma ClosesLast(target: string, s: string)
    requires Match(Tokens(target), s) && s != [] && s[|s| - 1] == ']'
    ensures target != [] && Closes(target[|target| - 1])
  {
    var tokens := Tokens(target);
    assert target != [];
    if !tokens[|target| - 1].AnyMany? {
      LastToken(tokens, s);
    }
  }

  lemma OpensFirst(target: string, k: nat, v: string)
    requires k <= |target| && Match(Tokens(target)[k..], v) && |v| >= 2 && v[0] == '['
    ensures k < |target| && Opens(target[k]) && (target[k] != '*' ==> k < |target| - 1)
  {
    var rest := Tokens(target)[k..];
    assert rest != [] && rest[0] == EscapedToken(target[k]);
    assert |rest| == 1 ==> rest[1..] == [];
  }

  lemma CutReached(target: string, i: nat, base: string)
    requires i < |target| && Opens(target[i]) && Closes(target[|target| - 1]) && (target[i] != '*' ==> i < |target| - 1)
    requires Match(Tokens(target)[..if target[i] == '*' then i + 1 else i], base)
    ensures CutMatches(target, i, base) || Match(Tokens(target), base)
  {
    var cut := Cut(target, i);
    assert Tokens(cut) == Tokens(target)[..|cut|];
    ParseEscaped(cut);
    if i == |target| - 1 {
      assert cut == target && Tokens(target)[..|target|] == Tokens(target);
    }
  }

  // An ID the glob matches, wildcards taken for closing brackets.
  function Instance(glob: string): string {
    seq(|glob|, i requires 0 <= i < |glob| => if glob[i] == '*' || glob[i] == '?' then ']' else glob[i])
  }

  lemma {:induction false} InstanceMatches(glob: string)
    ensures Match(Tokens(glob), Instance(glob))
  {
    if glob == [] {
      assert Tokens(glob) == [];
    } else {
      var tokens, s := Tokens(glob), Instance(glob);
      InstanceMatches(glob[1..]);
      assert tokens[1..] == Tokens(glob[1..]) && s[1..] == Instance(glob[1..]) && s == [s[0]] + s[1..];
      if tokens[0].AnyMany? {
        StarReaches(tokens, [s[0]], s[1..]);
      }
    }
  }

  // The bracket is taken by what can stand for it.
  lemma OpenTaken(target: string, i: nat, base: string)
    requires CutMatches(target, i, base)
    ensures Match(Tokens(target[..i + 1]), base + "[")
  {
    var cut := Cut(target, i);
    ParseEscaped(cut);
    if target[i] == '*' {
      TakesMore(Tokens(cut), base, "[");
    } else {
      assert target[..i + 1] == target[..i] + [target[i]];
      TokensConcat(target[..i], [target[i]]);
      var open := Tokens([target[i]]);
      assert open[1..] == [] && open[0] == EscapedToken(target[i]) && Match(open, "[");
      MatchConcat(Tokens(cut), open, base, "[");
    }
  }

  lemma TokensConcat(a: string, b: string)
    ensures Tokens(a + b) == Tokens(a) + Tokens(b)
  {
  }

  // What the rest of a glob matches, as the end of something in brackets.
  lemma ClosedTail(rest: string) returns (param: string)
    requires rest != [] && Closes(rest[|rest| - 1])
    ensures Match(Tokens(rest), param + "]")
  {
    var tail := Instance(rest);
    param := tail[..|tail| - 1];
    assert tail[|tail| - 1] == ']' && tail == param + "]";
    InstanceMatches(rest);
  }

  // A bare ID that a glob matches so far has a parameter with which it matches all of it.
  lemma CutHasParameter(target: string, i: nat, base: string) returns (param: string)
    requires CutMatches(target, i, base)
    ensures Match(Tokens(target), Bracketed(base, Some(param)))
  {
    var head, rest := target[..i + 1], target[i + 1..];
    param := ClosedTail(rest);
    OpenTaken(target, i, base);
    MatchConcat(Tokens(head), Tokens(rest), base + "[", param + "]");
    TokensConcat(head, rest);
    assert target == head + rest;
    assert (base + "[") + (param + "]") == Bracketed(base, Some(param));
  }

  // A star at the end takes whatever follows.
  lemma {:induction false} TakesMore(tokens: seq<Token>, s: string, t: string)
    requires tokens != [] && tokens[|tokens| - 1].AnyMany? && Match(tokens, s)
    ensures Match(tokens, s + t)
    decreases |tokens| + |s|
  {
    assert s != [] ==> (s + t)[1..] == s[1..] + t && (s + t)[0] == s[0];
    if |tokens| == 1 {
      assert tokens[1..] == [] && Match([], []);
      StarReaches(tokens, s + t, []);
      assert s + t + [] == s + t;
    } else if tokens[0].AnyMany? && !Match(tokens[1..], s) {
      TakesMore(tokens, s[1..], t);
    } else if tokens[0].AnyMany? {
      TakesMore(tokens[1..], s, t);
    } else {
      TakesMore(tokens[1..], s[1..], t);
    }
  }

  // ── The prescan keeps what the item filter keeps, and when ────────────────────────────

  // What is known of the engine settles the target. It is asked about two IDs if a bracketed
  // target is a glob to one side only, or a glob meets a parametrized item.
  predicate Known(target: string, param: Option<string>) {
    if HasWildcard(target) then param.None? || (Plain(target) && !DoubleStar(target))
    else '[' in WithoutVerbatimPrefix(target) ==> Plain(target)
  }

  ghost predicate SomeCut(target: string, base: string) {
    HasWildcard(target) && exists i: nat :: CutMatches(target, i, base)
  }

  /** One target: it selects the prescanned test whenever it selects the item, unless the item is
      parametrized, the target a glob, and the bare ID matches it only up to something that can
      stand for the bracket. */
  lemma TargetReachesPrescan(engine: Engine, base: string, param: Option<string>, target: string)
    requires Globs(engine) && ItemMatches(engine, Bracketed(base, param), target) && Known(target, param)
    ensures PrescanMatches(engine, base, target) || (param.Some? && SomeCut(target, base))
  {
    var id := Bracketed(base, param);
    if !HasWildcard(target) {
      if ContainsGlobChars(target) {
        NoVerbatim(target);
        EscapedMatchesItself(target, id);
      }
      PrefixReachesBase(base, param, target);
    } else if param.Some? {
      ParseEscaped(target);
      ParameterNeedsCut(target, base, param.value);
    }
  }

  /** A target without braces, backslashes and double stars never loses a test, whatever its
      parameters, if and only if no cut of it matches the bare ID, or all of it does. */
  lemma TargetNeverLoses(engine: Engine, base: string, target: string)
    requires Globs(engine) && Plain(target) && !DoubleStar(target)
    ensures (forall param | ItemMatches(engine, Bracketed(base, param), target) :: PrescanMatches(engine, base, target))
       <==> (SomeCut(target, base) ==> GlobMatches(Escaped(target), base))
  {
    if SomeCut(target, base) {
      var i: nat :| CutMatches(target, i, base);
      var param := CutHasParameter(target, i, base);
      ParseEscaped(target);
      assert ItemMatches(engine, Bracketed(base, Some(param)), target);
    } else {
      forall param | ItemMatches(engine, Bracketed(base, param), target) ensures PrescanMatches(engine, base, target) {
        TargetReachesPrescan(engine, base, param, target);
      }
    }
  }

  // ── Targets that are always safe ──────────────────────────────────────────────────────

  // Nothing but the last character can open a bracket, or the last cannot close one.
  predicate SafeGlob(target: string) {
    target == [] || !Closes(target[|target| - 1]) || forall i | 0 <= i < |target| - 1 :: !Opens(target[i])
  }

  const TEST_MARK := "::test_"

  // Every prescanned ID holds the mark, as only functions named so are tests.
  ghost predicate IsTest(base: string) {
    exists k | 0 <= k <= |base| :: TEST_MARK <= base[k..]
  }

  lemma PrescannedIsTest(path: Path, test: PrescanItem)
    requires "test_" <= test.fnName
    ensures IsTest(PrescanNodeId(path, test))
  {
    var base := PrescanNodeId(path, test);
    var k := |base| - |test.fnName| - 2;
    assert base[k..] == "::" + test.fnName;
    assert base[k..][..7] == TEST_MARK;
  }

  // A path's beginning, any of the path, some of the mark, and anything.
  ghost predicate Covers(target: string, u: string, x: string, v: string, y: string) {
    && target == u + ("*" + (v + "*")) && x + (v + y) == TEST_MARK
    && forall c | c in u :: c != ':' && !Opens(c)
  }

  ghost predicate CoversTests(target: string) {
    exists u, x, v, y :: Covers(target, u, x, v, y)
  }

  lemma MarkBehind(u: string, base: string) returns (k: nat)
    requires ':' !in u && u <= base && IsTest(base)
    ensures |u| <= k <= |base| && TEST_MARK <= base[k..]
  {
    k :| 0 <= k <= |base| && TEST_MARK <= base[k..];
    assert base[k] == base[k..][0] == TEST_MARK[0];
    PrefixChar(u, base, k);
  }

  lemma PrefixChar(u: string, base: string, k: nat)
    requires u <= base && k < |base| && base[k] !in u
    ensures |u| <= k
  {
  }

  lemma Regrouped(p: string, x: string, v: string, y: string, more: string)
    ensures p + ((x + (v + y)) + more) == (p + x) + (v + (y + more))
  {
    assert (x + (v + y)) + more == x + (v + (y + more));
  }

  // Behind a beginning without colons, every test ID holds the mark.
  lemma MarkFollows(u: string, x: string, v: string, y: string, base: string) returns (a: string, rest: string)
    requires x + (v + y) == TEST_MARK && ':' !in u && u <= base && IsTest(base)
    ensures base == u + (a + (v + rest))
  {
    var k := MarkBehind(u, base);
    var p, more := base[|u|..k], base[k..][|TEST_MARK|..];
    assert base[k..] == TEST_MARK + more;
    assert base == u + (p + base[k..]);
    Regrouped(p, x, v, y, more);
    a, rest := p + x, y + more;
  }

  lemma StarredMatches(u: string, v: string, a: string, rest: string)
    requires !Wildcards(u) && !Wildcards(v)
    ensures Match(Tokens(u + ("*" + (v + "*"))), u + (a + (v + rest)))
  {
    assert [AnyMany][1..] == [] && Match([], []);
    StarReaches([AnyMany], rest, []);
    assert rest + [] == rest;
    MatchAfterLiteral(v, [AnyMany], rest);
    var tail := [AnyMany] + (Tokens(v) + [AnyMany]);
    assert tail[1..] == Tokens(v) + [AnyMany];
    StarReaches(tail, a, v + rest);
    MatchAfterLiteral(u, tail, a + (v + rest));
    TokensConcat(u, "*" + (v + "*"));
    TokensConcat("*", v + "*");
    TokensConcat(v, "*");
    assert Tokens("*") == [AnyMany];
  }

  lemma MarkIsPlain(x: string, v: string, y: string)
    requires x + (v + y) == TEST_MARK
    ensures !Wildcards(v)
  {
    assert forall c | c in v :: c in x + (v + y);
    assert forall c | c in TEST_MARK :: c != '*' && c != '?';
  }

  // What a glob with a plain beginning matches begins so, before any bracket.
  lemma BeginningHolds(u: string, rest: string, base: string, param: string)
    requires !Wildcards(u) && '[' !in u && Match(Tokens(u + rest), Bracketed(base, Some(param)))
    ensures u <= base
  {
    var id := Bracketed(base, Some(param));
    TokensConcat(u, rest);
    LiteralPrefix(u, Tokens(rest), id);
    assert base + "[" <= id && (base + "[")[|base|] == '[';
    PrefixesNest(base + "[", u, id);
    PrefixHolds(base + "[", u, '[');
    PrefixesNest(u, base, id);
  }

  lemma CoverReaches(target: string, base: string, param: string)
    requires CoversTests(target) && IsTest(base) && Match(Tokens(target), Bracketed(base, Some(param)))
    ensures Match(Tokens(target), base)
  {
    var u, x, v, y :| Covers(target, u, x, v, y);
    BeginningHolds(u, "*" + (v + "*"), base, param);
    MarkIsPlain(x, v, y);
    var a, rest := MarkFollows(u, x, v, y, base);
    StarredMatches(u, v, a, rest);
  }

  // The usual globs lose nothing: `path::test_*`, which has no cut, and `*::test_*` or
  // `tests*::test_*`, which match every test they are cut short of.
  lemma SafeTargetReaches(engine: Engine, base: string, param: Option<string>, target: string)
    requires Globs(engine) && ItemMatches(engine, Bracketed(base, param), target) && Known(target, param)
    requires SafeGlob(target) || (CoversTests(target) && IsTest(base))
    ensures PrescanMatches(engine, base, target)
  {
    TargetReachesPrescan(engine, base, param, target);
    if param.Some? && HasWildcard(target) && !SafeGlob(target) {
      ParseEscaped(target);
      CoverReaches(target, base, param.value);
    }
  }

  const ALL_TESTS := "*::test_*"

  lemma AllTestsCovers()
    ensures CoversTests(ALL_TESTS) && Plain(ALL_TESTS) && !DoubleStar(ALL_TESTS)
  {
    assert ALL_TESTS == [] + ("*" + (TEST_MARK + "*"));
    assert Covers(ALL_TESTS, [], [], TEST_MARK, []);
    assert forall c | c in ALL_TESTS :: c != '{' && c != '}' && c != '\\';
    assert forall i | 0 < i < |ALL_TESTS| - 1 :: ALL_TESTS[i] != '*';
  }

  /** For one, `*::test_*` selects the prescanned test of every item it selects. */
  lemma AllTestsReach(engine: Engine, path: Path, test: PrescanItem, param: Option<string>)
    requires Globs(engine) && "test_" <= test.fnName
    requires ItemMatches(engine, Bracketed(PrescanNodeId(path, test), param), ALL_TESTS)
    ensures PrescanMatches(engine, PrescanNodeId(path, test), ALL_TESTS)
  {
    var base := PrescanNodeId(path, test);
    PrescannedIsTest(path, test);
    AllTestsCovers();
    SafeTargetReaches(engine, base, param, ALL_TESTS);
  }

  // ── Files ─────────────────────────────────────────────────────────────────────────────

  ghost predicate FileCut(items: seq<PrescanItem>, path: Path, targets: seq<string>) {
    exists test, t | test in items && t in targets :: SomeCut(t, PrescanNodeId(path, test))
  }

  function ItemOf(path: Path, test: PrescanItem, param: Option<string>): TestItem {
    TestItem(Bracketed(PrescanNodeId(path, test), param), path)
  }

  /** Selection never loses a test: whenever the item filter keeps an item, the prescan keeps the
      file it comes from, unless the item is parametrized and matches only by a cut glob. */
  lemma PrescanNeverLoses(engine: Engine, items: seq<PrescanItem>, path: Path, targets: seq<string>, sources: set<Path>,
                          test: PrescanItem, param: Option<string>)
    requires Globs(engine) && test in items && ItemKept(engine, ItemOf(path, test, param), targets, sources)
    requires Selects(engine, ItemOf(path, test, param), targets) ==>
      exists t | t in targets :: ItemMatches(engine, ItemOf(path, test, param).nodeId, t) && Known(t, param)
    ensures FileKept(engine, items, path, targets, sources) || (param.Some? && FileCut(items, path, targets))
  {
    if targets != [] && (sources == {} || path in sources) {
      var t :| t in targets && ItemMatches(engine, ItemOf(path, test, param).nodeId, t) && Known(t, param);
      TargetReachesPrescan(engine, PrescanNodeId(path, test), param, t);
    }
  }

  /** Exactly when a file loses a test: it is dropped, and a cut of some target matches one of its
      bare IDs. */
  lemma PrescanLosesExactly(engine: Engine, items: seq<PrescanItem>, path: Path, targets: seq<string>, sources: set<Path>)
    requires Globs(engine) && forall t | t in targets :: Plain(t) && !DoubleStar(t)
    ensures (exists test, param :: test in items && ItemKept(engine, ItemOf(path, test, param), targets, sources)) && !FileKept(engine, items, path, targets, sources)
       <==> FileCut(items, path, targets) && !FileKept(engine, items, path, targets, sources)
  {
    if FileCut(items, path, targets) {
      var test, t :| test in items && t in targets && SomeCut(t, PrescanNodeId(path, test));
      var i: nat :| CutMatches(t, i, PrescanNodeId(path, test));
      var param := CutHasParameter(t, i, PrescanNodeId(path, test));
      ParseEscaped(t);
      assert ItemMatches(engine, ItemOf(path, test, Some(param)).nodeId, t);
      assert ItemKept(engine, ItemOf(path, test, Some(param)), targets, sources);
    }
    if test, param :| test in items && ItemKept(engine, ItemOf(path, test, param), targets, sources) {
      PrescanNeverLoses(engine, items, path, targets, sources, test, param);
    }
  }

  // ── What the prescan does lose ────────────────────────────────────────────────────────

  // The glob for all parameters of a test matches each parametrized ID, and no bare one.
  lemma AllParametersGlob(base: string, param: string, bare: string)
    requires '*' !in base && '?' !in base && '[' !in bare
    ensures GlobMatches(Escaped(base + "[*]"), base + ("[" + param + "]"))
    ensures !GlobMatches(Escaped(base + "[*]"), bare)
  {
    var tail := [OneOf(false, "["), AnyMany, OneOf(false, "]")];
    ParseEscaped(base + "[*]");
    assert Tokens(base + "[*]") == Tokens(base) + tail;
    MatchAfterLiteral(base, tail, "[" + param + "]");
    ParameterMatches(tail, param);
    if Match(Tokens(base) + tail, bare) {
      LiteralPrefix(base, tail, bare);
      SuffixHolds(bare, |base|, '[');
    }
  }

  lemma ParameterMatches(tail: seq<Token>, param: string)
    requires tail == [OneOf(false, "["), AnyMany, OneOf(false, "]")]
    ensures Match(tail, "[" + param + "]")
  {
    assert ("[" + param + "]")[1..] == param + "]" && tail[1..][1..] == [OneOf(false, "]")];
    assert Match([OneOf(false, "]")], "]");
    StarReaches(tail[1..], param, "]");
  }

  // The file is dropped although the item is selected.
  ghost predicate Lost(engine: Engine, items: seq<PrescanItem>, path: Path, test: PrescanItem, param: string, target: string, sources: set<Path>) {
    && ItemKept(engine, TestItem(Bracketed(PrescanNodeId(path, test), Some(param)), path), [target], sources)
    && !FileKept(engine, items, path, [target], sources)
  }

  /** "All parameters of this test" is lost: the item filter selects every parametrized item,
      but the prescan drops the file, as the target cannot match an ID without a bracket. */
  lemma AllParametersLost(engine: Engine, items: seq<PrescanItem>, path: Path, test: PrescanItem, param: string, sources: set<Path>)
    requires Globs(engine) && (sources == {} || path in sources) && test in items
    requires Plain(PrescanNodeId(path, test)) && '*' !in PrescanNodeId(path, test) && '?' !in PrescanNodeId(path, test)
    requires forall item | item in items :: '[' !in PrescanNodeId(path, item)
    ensures Lost(engine, items, path, test, param, PrescanNodeId(path, test) + "[*]", sources)
  {
    var base := PrescanNodeId(path, test);
    var target := base + "[*]";
    assert target[|base| + 1] == '*';
    assert HasWildcard(target) by {
      NoVerbatim(target);
    }
    assert Plain(target) && !DoubleStar(target);
    assert Bracketed(base, Some(param)) == base + ("[" + param + "]");
    AllParametersGlob(base, param, base);
    assert ItemMatches(engine, Bracketed(base, Some(param)), target);
    forall item | item in items ensures !PrescanMatches(engine, PrescanNodeId(path, item), target) {
      AllParametersGlob(base, param, PrescanNodeId(path, item));
    }
  }

  function Braced(a: string, x: string, y: string, b: string): string {
    a + ("{" + (x + "," + y + "}" + b))
  }

  // Alternatives: the pattern with `{x,y}` matches what the pattern with `x` or with `y` does.
  ghost predicate Alternates(engine: Engine) {
    forall a, x, y, b, s | Plain(a + x + y + b) && x != [] && y != [] && ',' !in x && ',' !in y ::
      engine(Escaped(Braced(a, x, y, b)), s) <==> engine(Escaped(a + x + b), s) || engine(Escaped(a + y + b), s)
  }

  // An ID without a brace that matches the target is a parent of what stands before its brace.
  lemma BareMatch(id: string, a: string, rest: string)
    requires '{' !in id
    ensures MatchesNodeIdPrefix(id, a + ("{" + rest), true) ==> Continues(a + "{", id)
  {
    var head, target := a + "{", a + ("{" + rest);
    assert target[..|head|] == head && head[|a|] == '{';
    PrefixHolds(head, id, '{');
    PrefixesNest(head, target, id);
    PrefixesNest(head, id, target);
    assert |id| <= |a| && id <= target ==> id == target[..|id|] == head[..|id|] && target[|id|] == head[|id|];
    if |id| <= |a| && Continues(target, id) && target[|id|] != '[' {
      assert target[|id|] == target[|id|..][0] == ':' && target[|id| + 1] == target[|id|..][1] == ':';
      assert |id| + 1 <= |a| && head[|id| + 1] == target[|id| + 1];
      assert head[|id|..][0] == ':' && head[|id|..][1] == ':';
    }
  }

  // The target is a glob to the item filter, matching the first alternative, and none before.
  lemma AlternativesMatch(engine: Engine, a: string, x: string, y: string, b: string)
    requires Globs(engine) && Alternates(engine)
    requires Plain(a + x + y + b) && x != [] && y != [] && ',' !in x && ',' !in y
    requires !Wildcards(a + x + y + b) && '[' in b
    ensures ItemMatches(engine, a + x + b, Braced(a, x, y, b)) && !HasWildcard(Braced(a, x, y, b))
  {
    var target := Braced(a, x, y, b);
    forall c | c in target ensures c != '*' && c != '?' && c != '\\' {
      assert c in a + x + y + b || c in "{,}";
    }
    assert VERBATIM[0] == '\\';
    assert WithoutVerbatimPrefix(target) == target by {
      assert target[0] in target;
    }
    assert '[' in target;
    assert forall c | c in a + x + b :: c in a + x + y + b;
    EscapedMatchesItself(a + x + b, a + x + b);
    assert engine(Escaped(a + x + b), a + x + b);
  }

  /** So is a bracketed target with alternatives, as only the item filter takes it for a glob. */
  lemma AlternativesLost(engine: Engine, items: seq<PrescanItem>, path: Path, test: PrescanItem, param: string, sources: set<Path>,
                         a: string, x: string, y: string)
    requires Globs(engine) && Alternates(engine) && (sources == {} || path in sources) && test in items
    requires PrescanNodeId(path, test) == a + x && x != [] && y != [] && ',' !in x && ',' !in y
    requires Plain(a + x + y + ("[" + param + "]")) && !Wildcards(a + x + y + ("[" + param + "]"))
    requires forall item | item in items :: '{' !in PrescanNodeId(path, item) && !Continues(a + "{", PrescanNodeId(path, item))
    ensures Lost(engine, items, path, test, param, Braced(a, x, y, "[" + param + "]"), sources)
  {
    var b := "[" + param + "]";
    BracketText(a + x, param);
    BracedKept(engine, path, a, x, y, b, sources);
    BracedMissesFile(engine, items, path, a, x, y, b, sources);
  }

  lemma BracketText(base: string, param: string)
    ensures Bracketed(base, Some(param)) == base + ("[" + param + "]") && '[' in "[" + param + "]"
  {
    assert ("[" + param + "]")[0] == '[';
  }

  lemma BracedKept(engine: Engine, path: Path, a: string, x: string, y: string, b: string, sources: set<Path>)
    requires Globs(engine) && Alternates(engine)
    requires Plain(a + x + y + b) && x != [] && y != [] && ',' !in x && ',' !in y
    requires !Wildcards(a + x + y + b) && '[' in b
    ensures ItemKept(engine, TestItem(a + x + b, path), [Braced(a, x, y, b)], sources) && !HasWildcard(Braced(a, x, y, b))
  {
    AlternativesMatch(engine, a, x, y, b);
    OneTargetKept(engine, TestItem(a + x + b, path), Braced(a, x, y, b), sources);
  }

  lemma OneTargetKept(engine: Engine, item: TestItem, target: string, sources: set<Path>)
    requires ItemMatches(engine, item.nodeId, target)
    ensures ItemKept(engine, item, [target], sources)
  {
    assert target in [target];
  }

  // No bare ID matches the braces.
  lemma BracedMissesFile(engine: Engine, items: seq<PrescanItem>, path: Path, a: string, x: string, y: string, b: string, sources: set<Path>)
    requires !HasWildcard(Braced(a, x, y, b)) && (sources == {} || path in sources)
    requires forall item | item in items :: '{' !in PrescanNodeId(path, item) && !Continues(a + "{", PrescanNodeId(path, item))
    ensures !FileKept(engine, items, path, [Braced(a, x, y, b)], sources)
  {
    forall item | item in items ensures !PrescanMatches(engine, PrescanNodeId(path, item), Braced(a, x, y, b)) {
      BareMatch(PrescanNodeId(path, item), a, x + "," + y + "}" + b);
    }
  }
}
