/**
 * Properties of the chevron interpreter stated over the `Arrow` functions:
 * what a block definition leaves in its scope and in the route table, how
 * the fuel bound on route following behaves, and the textual (non-hygienic)
 * nature of `_substitute`.
 */
module ArrowFacts {
  import opened Text
  import opened Blocks
  import opened Arrow

  // ---------------------------------------------------------------------------
  // _process: reference definitions of a block's effect
  // ---------------------------------------------------------------------------

  /** The interior line binds the name `k`. */
  predicate Binds(line: string, k: string) {
    IsBinding(line) && Key(line) == k
  }

  /** The interior line is a route line with key `k` (stored as `target.k`). */
  predicate Stores(line: string, k: string) {
    !IsBinding(line) && Key(line) == k
  }

  /** The full route keys a block's interior lines write. */
  function RouteKeys(target: string, lines: seq<string>): set<string> {
    set line | line in lines && !IsBinding(line) :: RouteKey(target, Key(line))
  }

  /** `target.k` determines `k`. */
  lemma RouteKeySuffix(target: string, k1: string, k2: string)
    requires RouteKey(target, k1) == RouteKey(target, k2)
    ensures k1 == k2
  {
    assert k1 == RouteKey(target, k1)[|target| + 1..];
    assert k2 == RouteKey(target, k2)[|target| + 1..];
  }

  /** What the last binding line for `k` binds, if there is one. */
  function LastBinding(lines: seq<string>, k: string): Option<Value> {
    if lines == [] then None
    else if Binds(lines[|lines| - 1], k) then Some(Literal(lines[|lines| - 1]))
    else LastBinding(lines[..|lines| - 1], k)
  }

  /** The body of the last route line with key `k`, if there is one. */
  function LastRoute(lines: seq<string>, k: string): Option<string> {
    if lines == [] then None
    else if Stores(lines[|lines| - 1], k) then Some(RouteBody(lines[|lines| - 1]))
    else LastRoute(lines[..|lines| - 1], k)
  }

  /** `LastBinding` fails exactly when no line binds `k`. */
  lemma {:induction false} LastBindingNone(lines: seq<string>, k: string)
    ensures LastBinding(lines, k).None? <==> forall i | 0 <= i < |lines| :: !Binds(lines[i], k)
  {
    if lines != [] {
      var n := |lines| - 1;
      var init := lines[..n];
      LastBindingNone(init, k);
      assert forall i | 0 <= i < n :: init[i] == lines[i];
    }
  }

  /** `LastBinding` finds the binding line for `k` that no later line rebinds. */
  lemma {:induction false} LastBindingFound(lines: seq<string>, k: string, i: nat)
    requires i < |lines| && Binds(lines[i], k)
    requires forall j | i < j < |lines| :: !Binds(lines[j], k)
    ensures LastBinding(lines, k) == Some(Literal(lines[i]))
  {
    var n := |lines| - 1;
    if i < n {
      var init := lines[..n];
      assert init[i] == lines[i];
      assert forall j | 0 <= j < n :: init[j] == lines[j];
      LastBindingFound(init, k, i);
    }
  }

  /** `LastRoute` fails exactly when no line is a route line with key `k`. */
  lemma LastRouteNone(lines: seq<string>, k: string)
    ensures LastRoute(lines, k).None? <==> forall i | 0 <= i < |lines| :: !Stores(lines[i], k)
  {
    if LastRoute(lines, k).Some? {
      LastRouteSome(lines, k);
    } else {
      forall i | 0 <= i < |lines| ensures !Stores(lines[i], k) {
        LastRouteMisses(lines, k, i);
      }
    }
  }

  lemma {:induction false} LastRouteSome(lines: seq<string>, k: string)
    requires LastRoute(lines, k).Some?
    ensures exists i | 0 <= i < |lines| :: Stores(lines[i], k)
  {
    var n := |lines| - 1;
    if !Stores(lines[n], k) {
      var init := lines[..n];
      LastRouteSome(init, k);
      var i :| 0 <= i < n && Stores(init[i], k);
      assert init[i] == lines[i];
    }
  }

  lemma {:induction false} LastRouteMisses(lines: seq<string>, k: string, i: nat)
    requires LastRoute(lines, k).None? && i < |lines|
    ensures !Stores(lines[i], k)
  {
    var n := |lines| - 1;
    if i < n {
      var init := lines[..n];
      LastRouteMisses(init, k, i);
      assert init[i] == lines[i];
    }
  }

  /** `LastRoute` finds the route line for `key` that no later line overwrites. */
  lemma {:induction false} LastRouteFound(lines: seq<string>, k: string, i: nat)
    requires i < |lines| && Stores(lines[i], k)
    requires forall j | i < j < |lines| :: !Stores(lines[j], k)
    ensures LastRoute(lines, k) == Some(RouteBody(lines[i]))
  {
    var n := |lines| - 1;
    if i < n {
      var init := lines[..n];
      assert init[i] == lines[i];
      forall j | i < j < n ensures !Stores(init[j], k) {
        assert init[j] == lines[j];
      }
      LastRouteFound(init, k, i);
    }
  }

  /** Reading the interior lines fills the scope with the last binding of each name. */
  lemma {:induction false} DefineAllScope(target: string, d: Defs, lines: seq<string>, k: string)
    ensures Lookup(DefineAll(target, d, lines).scope, k)
            == if LastBinding(lines, k).Some? then LastBinding(lines, k) else Lookup(d.scope, k)
  {
    if lines != [] {
      DefineAllScope(target, d, lines[..|lines| - 1], k);
    }
  }

  /** Reading the interior lines stores under `target.k` the last route line with key `k`, if any. */
  lemma {:induction false} DefineAllRoute(target: string, d: Defs, lines: seq<string>, k: string)
    ensures var r := DefineAll(target, d, lines).routes;
      var key := RouteKey(target, k);
      && (key in r <==> key in d.routes || LastRoute(lines, k).Some?)
      && (key in r ==> r[key] == if LastRoute(lines, k).Some? then LastRoute(lines, k).value else d.routes[key])
  {
    if lines != [] {
      var line := lines[|lines| - 1];
      DefineAllRoute(target, d, lines[..|lines| - 1], k);
      if !IsBinding(line) && Key(line) != k && RouteKey(target, Key(line)) == RouteKey(target, k) {
        RouteKeySuffix(target, Key(line), k);
      }
    }
  }

  /** Keys that no route line of the block writes keep their entries. */
  lemma {:induction false} DefineAllOtherRoutes(target: string, d: Defs, lines: seq<string>, key: string)
    requires key !in RouteKeys(target, lines)
    ensures var r := DefineAll(target, d, lines).routes;
      && (key in r <==> key in d.routes)
      && (key in r ==> r[key] == d.routes[key])
  {
    if lines != [] {
      var init := lines[..|lines| - 1];
      assert RouteKeys(target, init) <= RouteKeys(target, lines) by {
        forall x | x in RouteKeys(target, init) ensures x in RouteKeys(target, lines) {
          var line :| line in init && !IsBinding(line) && x == RouteKey(target, Key(line));
          assert line in lines;
        }
      }
      DefineAllOtherRoutes(target, d, init, key);
      var last := lines[|lines| - 1];
      if !IsBinding(last) {
        assert RouteKey(target, Key(last)) in RouteKeys(target, lines);
      }
    }
  }

  /**
   * `_process` on a group: the target's scope is replaced by a fresh one that
   * holds exactly the block's bindings (the last one wins for a repeated
   * name); each `target.k` route is the block's last route line with key `k`,
   * overwriting any earlier entry; every other route, every other scope,
   * `values` and the output are left as they were.
   */
  lemma ProcessGroupEffect(s: Session, lines: seq<string>)
    requires |lines| > 0
    ensures var r := DefineGroup(s, lines);
      var t := Target(lines);
      var body := Interior(lines);
      && r.values == s.values && r.output == s.output
      && t in r.scopes && r.scopes == s.scopes[t := r.scopes[t]]
      && (forall k :: Lookup(r.scopes[t], k) == LastBinding(body, k))
      && (forall k :: RouteKey(t, k) in r.routes <==> RouteKey(t, k) in s.routes || LastRoute(body, k).Some?)
      && (forall k | LastRoute(body, k).Some? :: r.routes[RouteKey(t, k)] == LastRoute(body, k).value)
      && (forall key | key !in RouteKeys(t, body) ::
            (key in r.routes <==> key in s.routes) && (key in r.routes ==> r.routes[key] == s.routes[key]))
  {
    var t := Target(lines);
    var body := Interior(lines);
    var d0 := Defs([], s.routes);
    forall k ensures Lookup(DefineAll(t, d0, body).scope, k) == LastBinding(body, k) {
      DefineAllScope(t, d0, body, k);
    }
    forall k ensures var r := DefineAll(t, d0, body).routes;
      && (RouteKey(t, k) in r <==> RouteKey(t, k) in s.routes || LastRoute(body, k).Some?)
      && (LastRoute(body, k).Some? ==> r[RouteKey(t, k)] == LastRoute(body, k).value)
    {
      DefineAllRoute(t, d0, body, k);
    }
    forall key | key !in RouteKeys(t, body) ensures var r := DefineAll(t, d0, body).routes;
      (key in r <==> key in s.routes) && (key in r ==> r[key] == s.routes[key])
    {
      DefineAllOtherRoutes(t, d0, body, key);
    }
  }

  // ---------------------------------------------------------------------------
  // _route: the recursion limit
  // ---------------------------------------------------------------------------

  /** Once a dispatch returns within a recursion limit, a higher limit gives the same result. */
  lemma {:induction false} FuelMonotone(s: Session, line: string, fuel: nat, more: nat)
    requires Dispatch(s, line, fuel).Some? && fuel <= more
    ensures Dispatch(s, line, more) == Dispatch(s, line, fuel)
    decreases fuel
  {
    var parts := Segments(line);
    if parts[0] != "systemPrint" && !IsBinding(line) {
      var key := RouteKeyOf(parts);
      if key in s.routes {
        var next := Substituted(ScopeOf(s.scopes, parts[0]), s.routes[key], Args(parts));
        DispatchFollows(s, line, fuel);
        DispatchFollows(s, line, more);
        FuelMonotone(s, next, fuel - 1, more - 1);
      }
    }
  }

  /** The route of `line` rewrites it into itself. */
  predicate SelfRoute(s: Session, line: string) {
    var parts := Segments(line);
    && parts[0] != "systemPrint" && !IsBinding(line)
    && RouteKeyOf(parts) in s.routes
    && Substituted(ScopeOf(s.scopes, parts[0]), s.routes[RouteKeyOf(parts)], Args(parts)) == line
  }

  /** A line that routes to itself raises `RecursionError` whatever the recursion limit. */
  lemma {:induction false} SelfRouteNeverReturns(s: Session, line: string, fuel: nat)
    requires SelfRoute(s, line)
    ensures Dispatch(s, line, fuel) == None
    decreases fuel
  {
    if fuel > 0 {
      DispatchFollows(s, line, fuel);
      SelfRouteNeverReturns(s, line, fuel - 1);
    } else {
      DispatchTooDeep(s, line);
    }
  }

  /**
   * `execute` on a program whose block `n` is such a line: the exception
   * ends the loop there, so the blocks after it have no effect and the router
   * keeps what the blocks before it did.
   */
  lemma SelfRouteAborts(s: Session, blocks: seq<Block>, fuel: nat, n: nat)
    requires NonEmptyGroups(blocks) && n < |blocks| && blocks[n].Single?
    requires NonEmptyGroups(blocks[..n])
    requires ProcessAll(s, blocks[..n], fuel).raised.None?
    requires SelfRoute(ProcessAll(s, blocks[..n], fuel).state, blocks[n].line)
    ensures ProcessAll(s, blocks, fuel) == Outcome(Some(MaxRecursionDepth), ProcessAll(s, blocks[..n], fuel).state)
  {
    SelfRouteNeverReturns(ProcessAll(s, blocks[..n], fuel).state, blocks[n].line, fuel);
    ProcessAllSnoc(s, blocks, fuel, n);
    ProcessAllAborted(s, blocks, fuel, n + 1);
  }

  // ---------------------------------------------------------------------------
  // _substitute: purely textual rewriting
  // ---------------------------------------------------------------------------

  /** Text that contains `p + q` contains `p`. */
  lemma {:induction false} OccursPrefix(p: string, q: string, s: string)
    requires Occurs(p + q, s)
    ensures Occurs(p, s)
    decreases |s|
  {
    if s[..|p + q|] == p + q {
      assert s[..|p|] == (p + q)[..|p|] == p;
    } else {
      OccursPrefix(p, q, s[1..]);
    }
  }

  /** An action without `@` is left alone by the scope pass, whatever the scope. */
  lemma {:induction false} NoAtNoVars(action: string, scope: Scope)
    requires '@' !in action
    ensures ReplaceVars(action, scope) == action
  {
    if scope != [] {
      var (name, val) := scope[|scope| - 1];
      NoAtNoVars(action, scope[..|scope| - 1]);
      ReplaceNone(action, "@" + name, Show(val));
    }
  }

  /** An action without `arg` is left alone by the argument pass, whatever the arguments. */
  lemma {:induction false} NoArgNoArgs(action: string, args: seq<string>)
    requires !Occurs("arg", action)
    ensures ReplaceArgs(action, args) == action
  {
    if args != [] {
      var i := |args| - 1;
      NoArgNoArgs(action, args[..i]);
      if Occurs(ArgName(i), action) {
        OccursPrefix("arg", NatToString(i), action);
      }
      ReplaceAbsent(action, ArgName(i), args[i]);
    }
  }

  lemma ArgNames()
    ensures ArgName(0) == "arg0" && ArgName(1) == "arg1" && ArgName(2) == "arg2"
  {
    assert NatToString(0) == "0" && NatToString(1) == "1" && NatToString(2) == "2";
  }

  /** Non-hygienic: `arg1` also matches inside `arg10`, so the second argument eats the first two characters of it. */
  lemma ArgPrefixCapture()
    ensures ReplaceArgs("arg10", ["p", "q"]) == "q0"
  {
    ArgNames();
    var xs := ["p", "q"];
    assert xs[..1] == ["p"] && ["p"][..0] == [];
    assert "arg10"[..4][3] == '1' && "arg10"[1..] == "rg10";
    ReplaceNone("rg10", "arg0", "p");
    assert Replace("arg10", "arg0", "p") == "arg10";
    assert "arg10" == "arg1" + "0";
    ReplaceHit("0", "arg1", "q");
    ReplaceNone("0", "arg1", "q");
  }

  /** Non-hygienic: an argument value that spells a later placeholder is rewritten by the later pass. */
  lemma ArgValueRescanned()
    ensures ReplaceArgs("arg0", ["arg1", "z"]) == "z"
  {
    ArgNames();
    var xs := ["arg1", "z"];
    assert xs[..1] == ["arg1"] && ["arg1"][..0] == [];
    ReplaceHit([], "arg0", "arg1");
    assert "arg0" + [] == "arg0" && "arg1" + [] == "arg1";
    ReplaceHit([], "arg1", "z");
    assert "z" + [] == "z";
  }

  /** The argument pass with two arguments: `arg0` first, then `arg1`. */
  lemma TwoArguments(x: string, a0: string, a1: string)
    ensures ReplaceArgs(x, [a0, a1]) == Replace(Replace(x, ArgName(0), a0), ArgName(1), a1)
  {
    var args := [a0, a1];
    assert args[..1] == [a0] && [a0][..0] == [];
    assert ReplaceArgs(x, [a0]) == Replace(x, ArgName(0), a0);
    assert ReplaceArgs(x, args) == Replace(ReplaceArgs(x, [a0]), ArgName(1), a1);
  }

  /** Two placeholder names, the later one not starting with the earlier one, cannot overlap. */
  lemma ArgsDisjoint(i: nat, j: nat)
    requires i < j && !(ArgName(i) <= ArgName(j))
    ensures Disjoint(ArgName(i), ArgName(j))
  {
    NatToStringLonger(i, j);
    var p, q := ArgName(i), ArgName(j);
    assert p[1..] == "rg" + NatToString(i) && q[1..] == "rg" + NatToString(j);
    assert forall k | 2 <= k < |q[1..]| :: q[1..][k] == NatToString(j)[k - 2];
    assert forall k | 2 <= k < |p[1..]| :: p[1..][k] == NatToString(i)[k - 2];
  }

  /**
   * A placeholder `arg{j}` with no argument (`j >= len(args)`) stays in the
   * text, unless some argument's placeholder name is a prefix of it, as
   * `arg1` is of `arg10` (see `ArgPrefixCapture`).
   */
  lemma {:induction false} MissingArgStays(x: string, args: seq<string>, j: nat)
    requires |args| <= j && Occurs(ArgName(j), x)
    requires forall i | 0 <= i < |args| :: !(ArgName(i) <= ArgName(j))
    ensures Occurs(ArgName(j), ReplaceArgs(x, args))
  {
    if args != [] {
      var n := |args| - 1;
      MissingArgStays(x, args[..n], j);
      ArgsDisjoint(n, j);
      ReplaceKeeps(ReplaceArgs(x, args[..n]), ArgName(j), ArgName(n), args[n]);
    }
  }

  /** Text in which no placeholder occurs is left alone by the argument pass. */
  lemma {:induction false} ArgsAbsent(x: string, args: seq<string>)
    requires forall k | 0 <= k < |args| :: !Occurs(ArgName(k), x)
    ensures ReplaceArgs(x, args) == x
  {
    if args != [] {
      var n := |args| - 1;
      ArgsAbsent(x, args[..n]);
      ReplaceAbsent(x, ArgName(n), args[n]);
    }
  }

  /** `ArgResolved` for the first `n` arguments. */
  lemma {:induction false} ArgResolvedUpTo(i: nat, args: seq<string>, n: nat)
    requires i < n <= |args|
    requires forall k | 0 <= k < i :: !Occurs(ArgName(k), ArgName(i))
    requires forall j | i < j < n :: !Occurs(ArgName(j), args[i])
    ensures ReplaceArgs(ArgName(i), args[..n]) == args[i]
    decreases n
  {
    assert args[..n][..n - 1] == args[..n - 1];
    if n == i + 1 {
      ArgsAbsent(ArgName(i), args[..i]);
      ReplaceHit([], ArgName(i), args[i]);
      assert ArgName(i) + [] == ArgName(i) && args[i] + [] == args[i];
    } else {
      ArgResolvedUpTo(i, args, n - 1);
      ReplaceAbsent(args[i], ArgName(n - 1), args[n - 1]);
    }
  }

  /**
   * The argument pass turns the placeholder `arg{i}` into the `i`-th argument
   * (`parts[2 + i]`), provided no earlier placeholder occurs in `arg{i}` (as
   * `arg1` does in `arg10`) and no later placeholder occurs in the argument
   * (see `ArgValueRescanned`).
   */
  lemma ArgResolved(i: nat, args: seq<string>)
    requires i < |args|
    requires forall k | 0 <= k < i :: !Occurs(ArgName(k), ArgName(i))
    requires forall j | i < j < |args| :: !Occurs(ArgName(j), args[i])
    ensures ReplaceArgs(ArgName(i), args) == args[i]
  {
    ArgResolvedUpTo(i, args, |args|);
    assert args[..|args|] == args;
  }

  /** The scope pass over two consecutive parts of a scope. */
  lemma {:induction false} ReplaceVarsAppend(x: string, a: Scope, b: Scope)
    ensures ReplaceVars(x, a + b) == ReplaceVars(ReplaceVars(x, a), b)
    decreases |b|
  {
    if b == [] {
      assert a + b == a;
    } else {
      var n := |b| - 1;
      ReplaceVarsAppend(x, a, b[..n]);
      assert (a + b)[..|a + b| - 1] == a + b[..n];
      assert (a + b)[|a + b| - 1] == b[n];
    }
  }

  /** Variables whose `@name` does not occur in `@n` leave it alone. */
  lemma {:induction false} OthersAbsent(n: string, scope: Scope)
    requires forall i | 0 <= i < |scope| :: !Occurs("@" + scope[i].0, "@" + n)
    ensures ReplaceVars("@" + n, scope) == "@" + n
  {
    if scope != [] {
      var last := |scope| - 1;
      var init := scope[..last];
      assert forall i | 0 <= i < |init| :: init[i] == scope[i];
      OthersAbsent(n, init);
      ReplaceAbsent("@" + n, "@" + scope[last].0, Show(scope[last].1));
    }
  }

  /** Where `Lookup` finds a name: its first entry. */
  lemma {:induction false} LookupAt(scope: Scope, n: string, v: Value) returns (k: nat)
    requires Lookup(scope, n) == Some(v)
    ensures k < |scope| && scope[k] == (n, v)
    ensures forall i | 0 <= i < k :: scope[i].0 != n
  {
    if scope[0].0 == n {
      k := 0;
    } else {
      var k' := LookupAt(scope[1..], n, v);
      k := k' + 1;
    }
  }

  /**
   * The scope pass turns `@n` into `str(v)` when the scope binds `n` to `v`,
   * provided no other variable's `@name` occurs in `@n` (an `@sec` bound
   * earlier would capture the start of `@secret`) and `str(v)` holds no `@`
   * for a later variable to match.
   */
  lemma VarResolved(n: string, v: Value, scope: Scope)
    requires Lookup(scope, n) == Some(v) && '@' !in Show(v)
    requires forall i | 0 <= i < |scope| && scope[i].0 != n :: !Occurs("@" + scope[i].0, "@" + n)
    ensures ReplaceVars("@" + n, scope) == Show(v)
  {
    var k := LookupAt(scope, n, v);
    var before, after := scope[..k], scope[k + 1..];
    assert scope == (before + [scope[k]]) + after;
    ReplaceVarsAppend("@" + n, before + [scope[k]], after);
    ReplaceVarsAppend("@" + n, before, [scope[k]]);
    assert forall i | 0 <= i < |before| :: before[i] == scope[i];
    OthersAbsent(n, before);
    assert [scope[k]][..0] == [];
    ReplaceHit([], "@" + n, Show(v));
    assert ("@" + n) + [] == "@" + n && Show(v) + [] == Show(v);
    NoAtNoVars(Show(v), after);
  }
}
