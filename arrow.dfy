/**
 * The chevron interpreter of arrow.py: a `Router` object owning three
 * dictionaries (`routes`, `values`, `scopes`) that `execute` fills from a
 * program's blocks and then consults while dispatching its top-level lines.
 *
 * The first half of the module gives the meaning of each operation as a
 * function over a `Session` value (the router's fields); the `Router` class in
 * the second half is the imperative code, and each of its methods is proved
 * to move its fields exactly as the matching function says.  Console output
 * is the `output` field: one entry per `print` call.
 */
module Arrow {
  import opened Text
  import opened Blocks

  datatype Option<T> = None | Some(value: T)

  /** What a `key > value` line binds: `int(value)` of a digit string, or a quoted string without its quotes. */
  datatype Value = Int(n: nat) | Str(s: string)

  /** Python `str(value)`. */
  function Show(v: Value): string {
    match v
    case Int(n) => NatToString(n)
    case Str(s) => s
  }

  // ---------------------------------------------------------------------------
  // Scopes: one insertion-ordered dictionary per block target
  // ---------------------------------------------------------------------------

  /**
   * A Python dict from variable names to values.  Its iteration order (the
   * order `_substitute` replaces in) is the order in which keys were first
   * inserted, so it is kept as a list of pairs.
   */
  type Scope = seq<(string, Value)>

  function Names(scope: Scope): seq<string> {
    seq(|scope|, i requires 0 <= i < |scope| => scope[i].0)
  }

  /** `scope.get(k)`. */
  function Lookup(scope: Scope, k: string): Option<Value> {
    if scope == [] then None
    else if scope[0].0 == k then Some(scope[0].1)
    else Lookup(scope[1..], k)
  }

  /** `scope[k] = v`: an existing key keeps its place, a new key goes last. */
  function Put(scope: Scope, k: string, v: Value): (r: Scope)
    ensures Lookup(r, k) == Some(v)
    ensures forall j | j != k :: Lookup(r, j) == Lookup(scope, j)
    ensures Names(r) == if Lookup(scope, k).Some? then Names(scope) else Names(scope) + [k]
  {
    if scope == [] then [(k, v)]
    else if scope[0].0 == k then [(k, v)] + scope[1..]
    else
      var rest := Put(scope[1..], k, v);
      assert Names([scope[0]] + rest) == [scope[0].0] + Names(rest);
      assert Names(scope) == [scope[0].0] + Names(scope[1..]);
      [scope[0]] + rest
  }

  // ---------------------------------------------------------------------------
  // The three kinds of `key > value ...` line
  // ---------------------------------------------------------------------------

  /** `s.startswith('"') and s.endswith('"')` (a lone `"` passes too). */
  predicate IsQuoted(s: string) {
    StartsWith(s, "\"") && EndsWith(s, "\"")
  }

  /** `s[1:-1]`. */
  function Unquote(s: string): string {
    if |s| >= 2 then s[1..|s| - 1] else ""
  }

  /** The first segment of a line. */
  function Key(line: string): string {
    Segments(line)[0]
  }

  /** A two-segment line whose second segment is a digit string or a quoted string. */
  predicate IsBinding(line: string) {
    var parts := Segments(line);
    |parts| == 2 && (IsDigits(parts[1]) || IsQuoted(parts[1]))
  }

  /** The value a binding line binds. */
  function Literal(line: string): Value
    requires IsBinding(line)
  {
    var v := Segments(line)[1];
    if IsDigits(v) then Int(ParseNat(v)) else Str(Unquote(v))
  }

  /** The rule body a route line stores: its segments after the first, re-joined. */
  function RouteBody(line: string): string {
    Join(Segments(line)[1..], " > ")
  }

  /** `f"{target}.{key}"`. */
  function RouteKey(target: string, key: string): string {
    target + "." + key
  }

  // ---------------------------------------------------------------------------
  // _process: defining a block
  // ---------------------------------------------------------------------------

  /** The block's fresh scope and the route table while its lines are read. */
  datatype Defs = Defs(scope: Scope, routes: map<string, string>)

  /** One interior line of a block. */
  function DefineLine(target: string, d: Defs, line: string): Defs {
    if IsBinding(line) then d.(scope := Put(d.scope, Key(line), Literal(line)))
    else d.(routes := d.routes[RouteKey(target, Key(line)) := RouteBody(line)])
  }

  /** The interior lines, in order. */
  function DefineAll(target: string, d: Defs, lines: seq<string>): Defs {
    if lines == [] then d
    else DefineLine(target, DefineAll(target, d, lines[..|lines| - 1]), lines[|lines| - 1])
  }

  /** `block[0].split(">")[0].strip()`. */
  function Target(group: seq<string>): string
    requires |group| > 0
  {
    Key(group[0])
  }

  /** `block[1:-1] if block[0].endswith("{") else block`. */
  function Interior(group: seq<string>): seq<string>
    requires |group| > 0
  {
    if EndsWith(group[0], "{") then (if |group| >= 2 then group[1..|group| - 1] else [])
    else group
  }

  // ---------------------------------------------------------------------------
  // _resolve_value and _substitute
  // ---------------------------------------------------------------------------

  /** `_resolve_value`: `@name` is looked up in `values`, anything else passes through. */
  function ResolveValue(values: map<string, Value>, value: Option<string>): (r: Option<string>)
    ensures value.None? ==> r.None?
    ensures value.Some? && StartsWith(value.value, "@") && value.value[1..] in values
            ==> r == Some(Show(values[value.value[1..]]))
    ensures value.Some? && !(StartsWith(value.value, "@") && value.value[1..] in values) ==> r == value
  {
    match value
    case None => None
    case Some(v) =>
      if v != [] && StartsWith(v, "@") then
        Some(if v[1..] in values then Show(values[v[1..]]) else v)
      else value
  }

  /** What `print(value)` writes: `None` prints as `None`. */
  function Render(value: Option<string>): string {
    match value
    case None => "None"
    case Some(v) => v
  }

  /** `scopes.get(target, {})`. */
  function ScopeOf(scopes: map<string, Scope>, target: string): Scope {
    if target in scopes then scopes[target] else []
  }

  /** `parts[2:]`. */
  function Args(parts: seq<string>): seq<string> {
    if |parts| >= 2 then parts[2..] else []
  }

  /** `f"arg{i}"`. */
  function ArgName(i: nat): (r: string)
    ensures |r| > 0 && r[0] == 'a'
  {
    "arg" + NatToString(i)
  }

  /** The first loop of `_substitute`: each `@var` of the scope, in the scope's order. */
  function ReplaceVars(action: string, scope: Scope): string {
    if scope == [] then action
    else
      var (name, val) := scope[|scope| - 1];
      Replace(ReplaceVars(action, scope[..|scope| - 1]), "@" + name, Show(val))
  }

  /** The second loop of `_substitute`: `arg0`, `arg1`, ... in index order. */
  function ReplaceArgs(action: string, args: seq<string>): string {
    if args == [] then action
    else Replace(ReplaceArgs(action, args[..|args| - 1]), ArgName(|args| - 1), args[|args| - 1])
  }

  /** `_substitute`: scope variables first, then positional arguments. */
  function Substituted(scope: Scope, action: string, args: seq<string>): string {
    ReplaceArgs(ReplaceVars(action, scope), args)
  }

  // ---------------------------------------------------------------------------
  // The router's state and its operations
  // ---------------------------------------------------------------------------

  /** The fields of a `Router`, plus what it has printed. */
  datatype Session = Session(
    routes: map<string, string>,
    values: map<string, Value>,
    scopes: map<string, Scope>,
    output: seq<string>)

  /** `Router()`. */
  const Fresh := Session(map[], map[], map[], [])

  /** `f"{parts[0]}.{parts[1]}" if len(parts) > 1 else parts[0]`. */
  function RouteKeyOf(parts: seq<string>): string
    requires |parts| >= 1
  {
    if |parts| > 1 then RouteKey(parts[0], parts[1]) else parts[0]
  }

  /**
   * `_route(line)`.  Each route followed is one more nested call of
   * `_route`; `fuel` is how many more the interpreter's recursion limit
   * allows.  A chain that needs more ends in `RecursionError`, modelled as
   * `None`: the hops before it only rewrite the line, so nothing has changed
   * when it is raised.
   */
  function Dispatch(s: Session, line: string, fuel: nat): Option<Session>
    decreases fuel
  {
    var parts := Segments(line);
    if parts[0] == "systemPrint" then
      var value := ResolveValue(s.values, if |parts| > 1 then Some(parts[1]) else None);
      Some(s.(output := s.output + [Render(value)]))
    else if IsBinding(line) then
      Some(s.(values := s.values[parts[0] := Literal(line)]))
    else
      var key := RouteKeyOf(parts);
      if key !in s.routes then Some(s)
      else if fuel == 0 then None
      else Dispatch(s, Substituted(ScopeOf(s.scopes, parts[0]), s.routes[key], Args(parts)), fuel - 1)
  }

  /**
   * A dispatch that returns never touches `routes` or `scopes`, never removes
   * a value, and has at most one visible effect: one printed line or one
   * change of `values`, never both.
   */
  lemma {:induction false} DispatchEffects(s: Session, line: string, fuel: nat)
    ensures var r := Dispatch(s, line, fuel);
      r.Some? ==>
        && r.value.routes == s.routes && r.value.scopes == s.scopes
        && s.output <= r.value.output && |r.value.output| <= |s.output| + 1
        && (r.value.output == s.output || r.value.values == s.values)
        && s.values.Keys <= r.value.values.Keys
    decreases fuel
  {
    var parts := Segments(line);
    if parts[0] != "systemPrint" && !IsBinding(line) {
      var key := RouteKeyOf(parts);
      if key in s.routes && fuel > 0 {
        DispatchEffects(s, Substituted(ScopeOf(s.scopes, parts[0]), s.routes[key], Args(parts)), fuel - 1);
      }
    }
  }

  /** A `systemPrint` line prints its resolved second segment (or `None`) and does nothing else. */
  lemma DispatchPrints(s: Session, line: string, fuel: nat)
    requires Segments(line)[0] == "systemPrint"
    ensures var parts := Segments(line);
      Dispatch(s, line, fuel)
      == Some(s.(output := s.output + [Render(ResolveValue(s.values, if |parts| > 1 then Some(parts[1]) else None))]))
  {
  }

  /** A two-segment literal line writes `values[parts[0]]` and follows no route. */
  lemma DispatchBinds(s: Session, line: string, fuel: nat)
    requires Segments(line)[0] != "systemPrint" && IsBinding(line)
    ensures Dispatch(s, line, fuel) == Some(s.(values := s.values[Key(line) := Literal(line)]))
  {
  }

  /** Any other line whose route key is known is rewritten and dispatched again, one call deeper. */
  lemma DispatchFollows(s: Session, line: string, fuel: nat)
    requires Segments(line)[0] != "systemPrint" && !IsBinding(line)
    requires RouteKeyOf(Segments(line)) in s.routes && fuel > 0
    ensures var parts := Segments(line);
      Dispatch(s, line, fuel)
      == Dispatch(s, Substituted(ScopeOf(s.scopes, parts[0]), s.routes[RouteKeyOf(parts)], Args(parts)), fuel - 1)
  {
  }

  /** An unknown route key is a silent no-op. */
  lemma DispatchStops(s: Session, line: string, fuel: nat)
    requires Segments(line)[0] != "systemPrint" && !IsBinding(line)
    requires RouteKeyOf(Segments(line)) !in s.routes
    ensures Dispatch(s, line, fuel) == Some(s)
  {
  }

  /** A known route key with no call left to spend raises `RecursionError`. */
  lemma DispatchTooDeep(s: Session, line: string)
    requires Segments(line)[0] != "systemPrint" && !IsBinding(line)
    requires RouteKeyOf(Segments(line)) in s.routes
    ensures Dispatch(s, line, 0) == None
  {
  }

  /** A group's effect: the target gets the block's fresh scope, and its route lines are stored. */
  function DefineGroup(s: Session, lines: seq<string>): Session
    requires |lines| > 0
  {
    var target := Target(lines);
    var d := DefineAll(target, Defs([], s.routes), Interior(lines));
    s.(routes := d.routes, scopes := s.scopes[target := d.scope])
  }

  /** `_process(block)`: a group defines a target, a bare line is dispatched; `None` is `RecursionError`. */
  function ProcessBlock(s: Session, block: Block, fuel: nat): Option<Session>
    requires block.Group? ==> |block.lines| > 0
  {
    match block
    case Group(lines) => Some(DefineGroup(s, lines))
    case Single(line) => Dispatch(s, line, fuel)
  }

  /** The exceptions that escape `execute`. */
  datatype Raised =
    | PopFromEmptyList   // `IndexError` from `stack.pop()` in `_parse_blocks`
    | MaxRecursionDepth  // `RecursionError` from a route chain in `_route`

  /** How `execute` ends: the exception it raised, if any, and the router's fields afterwards. */
  datatype Outcome = Outcome(raised: Option<Raised>, state: Session)

  /** One more block, unless an exception has already ended the loop. */
  function Then(o: Outcome, block: Block, fuel: nat): Outcome
    requires block.Group? ==> |block.lines| > 0
  {
    if o.raised.Some? then o
    else match ProcessBlock(o.state, block, fuel)
      case None => Outcome(Some(MaxRecursionDepth), o.state)
      case Some(t) => Outcome(None, t)
  }

  /** `for block in blocks: self._process(block)`; a `RecursionError` ends the loop. */
  function ProcessAll(s: Session, blocks: seq<Block>, fuel: nat): Outcome
    requires NonEmptyGroups(blocks)
  {
    if blocks == [] then Outcome(None, s)
    else
      var init := blocks[..|blocks| - 1];
      assert NonEmptyGroups(init) by {
        forall i | 0 <= i < |init| ensures init[i] == blocks[i] { }
      }
      Then(ProcessAll(s, init, fuel), blocks[|blocks| - 1], fuel)
  }

  lemma DefineAllStep(target: string, d: Defs, lines: seq<string>, i: nat)
    requires i < |lines|
    ensures DefineAll(target, d, lines[..i + 1]) == DefineLine(target, DefineAll(target, d, lines[..i]), lines[i])
  {
    assert lines[..i + 1][..i] == lines[..i];
  }

  /** A group's effect on the session, spelled out; defining a group never raises. */
  lemma ProcessGroup(s: Session, lines: seq<string>, fuel: nat)
    requires |lines| > 0
    ensures var d := DefineAll(Target(lines), Defs([], s.routes), Interior(lines));
      ProcessBlock(s, Group(lines), fuel) == Some(s.(routes := d.routes, scopes := s.scopes[Target(lines) := d.scope]))
  {
  }

  lemma WholePrefix(blocks: seq<Block>)
    ensures blocks[..|blocks|] == blocks
  {
  }

  /** The three branches of the interior loop of `_process`, line by line. */
  lemma DefineLineCases(target: string, d: Defs, line: string)
    ensures var parts := Segments(line);
      DefineLine(target, d, line)
      == if |parts| == 2 && IsDigits(parts[1]) then d.(scope := Put(d.scope, parts[0], Int(ParseNat(parts[1]))))
         else if |parts| == 2 && IsQuoted(parts[1]) then d.(scope := Put(d.scope, parts[0], Str(Unquote(parts[1]))))
         else d.(routes := d.routes[RouteKey(target, parts[0]) := Join(parts[1..], " > ")])
  {
  }

  lemma NonEmptyGroupsPrefix(blocks: seq<Block>, n: nat)
    requires NonEmptyGroups(blocks) && n <= |blocks|
    ensures NonEmptyGroups(blocks[..n])
  {
    forall i | 0 <= i < n ensures blocks[..n][i] == blocks[i] { }
  }

  lemma ProcessAllSnoc(s: Session, blocks: seq<Block>, fuel: nat, n: nat)
    requires NonEmptyGroups(blocks) && n < |blocks|
    ensures NonEmptyGroups(blocks[..n]) && NonEmptyGroups(blocks[..n + 1])
    ensures ProcessAll(s, blocks[..n + 1], fuel) == Then(ProcessAll(s, blocks[..n], fuel), blocks[n], fuel)
  {
    NonEmptyGroupsPrefix(blocks, n);
    NonEmptyGroupsPrefix(blocks, n + 1);
    assert blocks[..n + 1][..n] == blocks[..n];
  }

  /**
   * Once a block has raised `RecursionError`, the blocks after it are never
   * processed: the outcome of the whole loop is the outcome at that block.
   */
  lemma {:induction false} ProcessAllAborted(s: Session, blocks: seq<Block>, fuel: nat, n: nat)
    requires NonEmptyGroups(blocks) && n <= |blocks|
    requires NonEmptyGroups(blocks[..n]) && ProcessAll(s, blocks[..n], fuel).raised.Some?
    ensures ProcessAll(s, blocks, fuel) == ProcessAll(s, blocks[..n], fuel)
    decreases |blocks| - n
  {
    if n < |blocks| {
      ProcessAllSnoc(s, blocks, fuel, n);
      ProcessAllAborted(s, blocks, fuel, n + 1);
    } else {
      WholePrefix(blocks);
    }
  }

  /**
   * `execute(code)`: `IndexError` from the splitter is raised before any
   * block is processed, so the router is left as it was; a `RecursionError`
   * leaves the effects of the blocks before the one that raised it.
   */
  function Run(s: Session, code: string, fuel: nat): Outcome {
    var lines := CleanLines(code);
    match SplitBlocks(lines)
    case IndexError => Outcome(Some(PopFromEmptyList), s)
    case Ok(blocks) =>
      SplitBlocksShape(lines);
      ProcessAll(s, blocks, fuel)
  }

  // ---------------------------------------------------------------------------
  // The Router object
  // ---------------------------------------------------------------------------

  class Router {
    var routes: map<string, string>
    var values: map<string, Value>
    var scopes: map<string, Scope>
    /** What `print` has written, one entry per call. */
    var output: seq<string>

    function State(): Session
      reads this
    {
      Session(routes, values, scopes, output)
    }

    constructor ()
      ensures State() == Fresh
    {
      routes, values, scopes, output := map[], map[], map[], [];
    }

    /** `execute(code)`; `raised` is the exception that escaped it, if any. */
    method Execute(code: string, fuel: nat) returns (raised: Option<Raised>)
      modifies this
      ensures raised == Run(old(State()), code, fuel).raised
      ensures State() == Run(old(State()), code, fuel).state
    {
      var parsed := ParseBlocks(code);
      if parsed.IndexError? {
        return Some(PopFromEmptyList);
      }
      var blocks := parsed.value;
      SplitBlocksShape(CleanLines(code));
      ghost var s := State();
      NonEmptyGroupsPrefix(blocks, 0);
      assert blocks[..0] == [];
      for i := 0 to |blocks|
        invariant NonEmptyGroups(blocks[..i])
        invariant ProcessAll(s, blocks[..i], fuel) == Outcome(None, State())
      {
        ProcessAllSnoc(s, blocks, fuel, i);
        var done := Process(blocks[i], fuel);
        if !done {
          ProcessAllAborted(s, blocks, fuel, i + 1);
          return Some(MaxRecursionDepth);
        }
      }
      WholePrefix(blocks);
      raised := None;
    }

    /** `_parse_blocks(code)`; it reads no field. */
    method ParseBlocks(code: string) returns (r: Result<seq<Block>>)
      ensures r == SplitBlocks(CleanLines(code))
    {
      var lines := CleanLines(code);
      var blocks: seq<Block>, stack: seq<string>, current: seq<string> := [], [], [];
      for i := 0 to |lines|
        invariant Scan(lines[..i]) == Ok(Splitter(blocks, stack, current))
      {
        var line := lines[i];
        ScanNext(lines, i);
        if EndsWith(line, "{") {
          stack := stack + [line];
          current := current + [line];
        } else if StartsWith(line, "}") {
          if stack == [] {
            // list.pop() on an empty list
            ScanSticky(lines[..i + 1], lines[i + 1..]);
            assert lines[..i + 1] + lines[i + 1..] == lines;
            return IndexError;
          }
          stack := stack[..|stack| - 1];
          current := current + [line];
          if stack == [] {
            blocks := blocks + [Group(current)];
            current := [];
          }
        } else {
          current := current + [line];
        }
      }
      assert lines[..|lines|] == lines;
      r := Ok(blocks + Singles(current));
    }

    /** `_process(block)`; `done` is false when it raised `RecursionError`, which changes nothing. */
    method Process(block: Block, fuel: nat) returns (done: bool)
      requires block.Group? ==> |block.lines| > 0
      modifies this
      ensures done <==> ProcessBlock(old(State()), block, fuel).Some?
      ensures State() == if done then ProcessBlock(old(State()), block, fuel).value else old(State())
    {
      match block
      case Single(line) =>
        done := Route(line, fuel);
      case Group(lines) =>
        ghost var s := State();
        var target := Segments(lines[0])[0];
        var interior := if EndsWith(lines[0], "{") then (if |lines| >= 2 then lines[1..|lines| - 1] else []) else lines;
        assert target == Target(lines) && interior == Interior(lines);
        // Python registers `scope` under `target` first and fills it through
        // that alias; nothing reads `scopes` in between, so it is stored at the end.
        var scope: Scope := [];
        var table := routes;
        assert interior[..0] == [];
        for i := 0 to |interior|
          invariant Defs(scope, table) == DefineAll(target, Defs([], s.routes), interior[..i])
          invariant State() == s
        {
          var line := interior[i];
          DefineAllStep(target, Defs([], s.routes), interior, i);
          DefineLineCases(target, Defs(scope, table), line);
          var parts := Segments(line);
          if |parts| == 2 && IsDigits(parts[1]) {
            scope := Put(scope, parts[0], Int(ParseNat(parts[1])));
          } else if |parts| == 2 && IsQuoted(parts[1]) {
            scope := Put(scope, parts[0], Str(Unquote(parts[1])));
          } else {
            table := table[RouteKey(target, parts[0]) := Join(parts[1..], " > ")];
          }
        }
        assert interior[..|interior|] == interior;
        assert Defs(scope, table) == DefineAll(Target(lines), Defs([], s.routes), Interior(lines));
        ProcessGroup(s, lines, fuel);
        routes, scopes := table, scopes[target := scope];
        done := true;
    }

    /** `_route(line)` with `fuel` nested calls left; `done` is false when it raised `RecursionError`, which changes nothing. */
    method Route(line: string, fuel: nat) returns (done: bool)
      modifies this
      ensures done <==> Dispatch(old(State()), line, fuel).Some?
      ensures State() == if done then Dispatch(old(State()), line, fuel).value else old(State())
      decreases fuel
    {
      ghost var s := State();
      var parts := Segments(line);
      if parts[0] == "systemPrint" {
        var value := if |parts| > 1 then Some(parts[1]) else None;
        value := ResolveValue(values, value);
        output := output + [Render(value)];
        DispatchPrints(s, line, fuel);
        return true;
      }
      if |parts| == 2 {
        if IsDigits(parts[1]) {
          values := values[parts[0] := Int(ParseNat(parts[1]))];
          assert IsBinding(line) && Literal(line) == Int(ParseNat(parts[1]));
          DispatchBinds(s, line, fuel);
          return true;
        } else if IsQuoted(parts[1]) {
          values := values[parts[0] := Str(Unquote(parts[1]))];
          assert IsBinding(line) && Literal(line) == Str(Unquote(parts[1]));
          DispatchBinds(s, line, fuel);
          return true;
        }
      }
      assert !IsBinding(line);
      var key := if |parts| > 1 then parts[0] + "." + parts[1] else parts[0];
      assert key == RouteKeyOf(parts);
      if key !in routes {
        DispatchStops(s, line, fuel);
        return true;
      }
      if fuel == 0 {
        // the nested call would exceed the recursion limit
        DispatchTooDeep(s, line);
        return false;
      }
      var action := Substitute(routes[key], parts);
      DispatchFollows(s, line, fuel);
      done := Route(action, fuel - 1);
    }

    /** `_substitute(action, parts)`; it reads `scopes` and changes nothing. */
    method Substitute(action: string, parts: seq<string>) returns (r: string)
      requires |parts| >= 1
      ensures r == Substituted(ScopeOf(scopes, parts[0]), action, Args(parts))
    {
      var target := parts[0];
      var args := if |parts| >= 2 then parts[2..] else [];
      var scope := if target in scopes then scopes[target] else [];
      r := action;
      for i := 0 to |scope|
        invariant r == ReplaceVars(action, scope[..i])
      {
        assert scope[..i + 1][..i] == scope[..i];
        r := Replace(r, "@" + scope[i].0, Show(scope[i].1));
      }
      assert scope[..|scope|] == scope;
      ghost var vars := r;
      for i := 0 to |args|
        invariant r == ReplaceArgs(vars, args[..i])
      {
        assert args[..i + 1][..i] == args[..i];
        r := Replace(r, "arg" + NatToString(i), args[i]);
      }
      assert args[..|args|] == args;
    }
  }
}
