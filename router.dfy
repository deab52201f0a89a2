/**
 * router.py: a second, smaller route table.  `send` takes a chevron line and
 * links each segment to the next one; a source that is already in the table
 * has the new target appended to what it routes to, after a space.
 */
module Chain {
  import opened Text

  /** The route table: each source and the text it routes to. */
  type Table = map<string, string>

  /** One step of the loop in `send`: `source` routes to `target`, appended after a space when it already routes somewhere. */
  function Link(routes: Table, source: string, target: string): Table {
    routes[source := if source in routes then routes[source] + " " + target else target]
  }

  /** The table after the first `n` adjacent pairs of `parts` are linked. */
  function Relay(routes: Table, parts: seq<string>, n: nat): Table
    requires n < |parts|
  {
    if n == 0 then routes else Link(Relay(routes, parts, n - 1), parts[n - 1], parts[n])
  }

  /** `send(line)`: a line without `>` is ignored; otherwise every segment is linked to the next. */
  function Sent(routes: Table, line: string): Table {
    if '>' !in line then routes
    else
      var parts := Segments(line);
      Relay(routes, parts, |parts| - 1)
  }

  // ---------------------------------------------------------------------------
  // A reference definition of each entry
  // ---------------------------------------------------------------------------

  /** The targets the first `n` pairs of `parts` link `k` to, in order. */
  function Targets(parts: seq<string>, n: nat, k: string): seq<string>
    requires n < |parts|
  {
    if n == 0 then [] else Targets(parts, n - 1, k) + (if parts[n - 1] == k then [parts[n]] else [])
  }

  /** What `k` routed to before, if anything. */
  function Prior(routes: Table, k: string): seq<string> {
    if k in routes then [routes[k]] else []
  }

  /** The sources among the first `n` segments. */
  function Sources(parts: seq<string>, n: nat): (r: set<string>)
    requires n <= |parts|
    ensures |r| <= n
    ensures forall i | 0 <= i < n :: parts[i] in r
  {
    if n == 0 then {} else Sources(parts, n - 1) + {parts[n - 1]}
  }

  /** The sources `send(line)` links: every segment but the last, and none for a line without `>`. */
  function SourcesOf(line: string): set<string> {
    if '>' !in line then {}
    else
      var parts := Segments(line);
      Sources(parts, |parts| - 1)
  }

  /** The targets `send(line)` links `k` to. */
  function TargetsOf(line: string, k: string): seq<string> {
    if '>' !in line then []
    else
      var parts := Segments(line);
      Targets(parts, |parts| - 1, k)
  }

  /** One link keeps the reference description of entry `k`: `prev` becomes `prev` plus the new target when `source` is `k`. */
  lemma LinkEntry(routes: Table, source: string, target: string, k: string, prev: seq<string>)
    requires (k in routes <==> prev != []) && (k in routes ==> routes[k] == Join(prev, " "))
    ensures var r := Link(routes, source, target);
      var all := prev + (if source == k then [target] else []);
      && (k in r <==> all != [])
      && (k in r ==> r[k] == Join(all, " "))
  {
    if source == k {
      if prev != [] {
        JoinSnoc(prev, target, " ");
      } else {
        assert prev + [target] == [target];
      }
    } else {
      assert prev + [] == prev;
    }
  }

  /**
   * After the first `n` pairs, `k` routes to its old text and every target
   * it was linked to, in order, separated by spaces; it is absent only when
   * it was absent and never linked.
   */
  lemma {:induction false} RelayEntry(routes: Table, parts: seq<string>, n: nat, k: string)
    requires n < |parts|
    ensures var r := Relay(routes, parts, n);
      var all := Prior(routes, k) + Targets(parts, n, k);
      && (k in r <==> all != [])
      && (k in r ==> r[k] == Join(all, " "))
  {
    if n == 0 {
      assert Prior(routes, k) + Targets(parts, 0, k) == Prior(routes, k);
    } else {
      var before := Relay(routes, parts, n - 1);
      var ts := Targets(parts, n - 1, k);
      var step: seq<string> := if parts[n - 1] == k then [parts[n]] else [];
      RelayEntry(routes, parts, n - 1, k);
      LinkEntry(before, parts[n - 1], parts[n], k, Prior(routes, k) + ts);
      assert Relay(routes, parts, n) == Link(before, parts[n - 1], parts[n]);
      assert Targets(parts, n, k) == ts + step;
      assert Prior(routes, k) + (ts + step) == (Prior(routes, k) + ts) + step;
    }
  }

  /** `k` is linked to something exactly when it is one of the sources. */
  lemma {:induction false} TargetsEmpty(parts: seq<string>, n: nat, k: string)
    requires n < |parts|
    ensures Targets(parts, n, k) == [] <==> k !in Sources(parts, n)
  {
    if n > 0 {
      TargetsEmpty(parts, n - 1, k);
    }
  }

  /** A source that occurs once is linked to the segment after it, and to nothing else. */
  lemma {:induction false} TargetsOnce(parts: seq<string>, n: nat, k: string, i: nat)
    requires i < n < |parts| && parts[i] == k
    requires forall j | 0 <= j < n && j != i :: parts[j] != k
    ensures Targets(parts, n, k) == [parts[i + 1]]
  {
    if i < n - 1 {
      TargetsOnce(parts, n - 1, k, i);
    } else {
      TargetsEmpty(parts, n - 1, k);
      if k in Sources(parts, n - 1) {
        SourcesWithin(parts, n - 1, k);
        assert false;
      }
    }
  }

  /** A source among the first `n` segments is one of them. */
  lemma {:induction false} SourcesWithin(parts: seq<string>, n: nat, k: string)
    requires n <= |parts| && k in Sources(parts, n)
    ensures exists i | 0 <= i < n :: parts[i] == k
  {
    if parts[n - 1] != k {
      SourcesWithin(parts, n - 1, k);
    }
  }

  // ---------------------------------------------------------------------------
  // send
  // ---------------------------------------------------------------------------

  /** `send(line)` on entry `k`: the old text, then each target `k` is linked to in the line, separated by spaces. */
  lemma SendEntry(routes: Table, line: string, k: string)
    ensures var r := Sent(routes, line);
      var all := Prior(routes, k) + TargetsOf(line, k);
      && (k in r <==> all != [])
      && (k in r ==> r[k] == Join(all, " "))
  {
    if '>' in line {
      var parts := Segments(line);
      RelayEntry(routes, parts, |parts| - 1, k);
    } else {
      assert Prior(routes, k) + TargetsOf(line, k) == Prior(routes, k);
    }
  }

  /** An entry whose key is not a source of the line is left as it was; a line without `>` changes nothing. */
  lemma SendFrame(routes: Table, line: string, k: string)
    requires k !in SourcesOf(line)
    ensures var r := Sent(routes, line);
      && (k in r <==> k in routes)
      && (k in r ==> r[k] == routes[k])
    ensures '>' !in line ==> Sent(routes, line) == routes
  {
    if '>' in line {
      var parts := Segments(line);
      TargetsEmpty(parts, |parts| - 1, k);
    }
    SendEntry(routes, line, k);
  }

  /**
   * The keys after `send(line)`: the old ones and every segment but the last.
   * No key is removed, and at most one key per pair is added.
   */
  lemma SendKeys(routes: Table, line: string)
    ensures Sent(routes, line).Keys == routes.Keys + SourcesOf(line)
    ensures |Sent(routes, line).Keys - routes.Keys| <= |Segments(line)| - 1
  {
    var r := Sent(routes, line);
    forall k ensures k in r <==> k in routes || k in SourcesOf(line) {
      SendEntry(routes, line, k);
      if '>' in line {
        var parts := Segments(line);
        TargetsEmpty(parts, |parts| - 1, k);
      }
    }
    assert r.Keys == routes.Keys + SourcesOf(line);
    assert r.Keys - routes.Keys <= SourcesOf(line);
    SubsetSize(r.Keys - routes.Keys, SourcesOf(line));
  }

  lemma SubsetSize(a: set<string>, b: set<string>)
    requires a <= b
    ensures |a| <= |b|
  {
    assert b == a + (b - a);
  }

  /** The sources of a line are its stripped segments: no whitespace at either end and no `>`. */
  lemma SourcesStripped(line: string, k: string)
    requires k in SourcesOf(line)
    ensures Trimmed(k) && '>' !in k && k in Segments(line)
  {
    var parts := Segments(line);
    SourcesWithin(parts, |parts| - 1, k);
    var i :| 0 <= i < |parts| - 1 && parts[i] == k;
    SegmentsClean(line);
  }

  /**
   * A source that occurs once in the line: its entry is appended to, not
   * overwritten; it becomes the old text, a space and the next segment.
   */
  lemma SendAppends(routes: Table, line: string, i: nat)
    requires '>' in line && i < |Segments(line)| - 1
    requires forall j | 0 <= j < |Segments(line)| - 1 && j != i :: Segments(line)[j] != Segments(line)[i]
    ensures var parts := Segments(line);
      var r := Sent(routes, line);
      && parts[i] in r
      && r[parts[i]] == if parts[i] in routes then routes[parts[i]] + " " + parts[i + 1] else parts[i + 1]
  {
    var parts := Segments(line);
    var k := parts[i];
    TargetsOnce(parts, |parts| - 1, k, i);
    SendEntry(routes, line, k);
    if k in routes {
      assert Prior(routes, k) + TargetsOf(line, k) == [routes[k], parts[i + 1]];
    } else {
      assert Prior(routes, k) + TargetsOf(line, k) == [parts[i + 1]];
    }
  }

  // ---------------------------------------------------------------------------
  // The Router object
  // ---------------------------------------------------------------------------

  /** router.py's `Router`: one route table, updated in place by `send`. */
  class Router {
    var routes: Table

    constructor()
      ensures routes == map[]
    {
      routes := map[];
    }

    /** Links each segment of `line` to the next, reading and then writing one entry per pair. */
    method Send(line: string)
      modifies this
      ensures routes == Sent(old(routes), line)
    {
      if '>' !in line {
        return;
      }
      var parts := Segments(line);
      var i := 0;
      while i < |parts| - 1
        invariant 0 <= i <= |parts| - 1
        invariant routes == Relay(old(routes), parts, i)
      {
        var source := parts[i];
        var target := parts[i + 1];
        if source in routes {
          target := routes[source] + " " + target;
        }
        routes := routes[source := target];
        i := i + 1;
      }
    }
  }

  // ---------------------------------------------------------------------------
  // The two test scenarios
  // ---------------------------------------------------------------------------

  /** A segment as a line writes it. */
  predicate Word(w: string) {
    Trimmed(w) && '>' !in w
  }

  /** `send` on a line `" > ".join(words)`, with trailing whitespace, links its words. */
  lemma SendWords(routes: Table, words: seq<string>, post: string)
    requires |words| >= 2 && AllSpace(post)
    requires forall i | 0 <= i < |words| :: Word(words[i])
    ensures Sent(routes, Join(words, " > ") + post) == Relay(routes, words, |words| - 1)
  {
    var line := Join(words, " > ") + post;
    assert line[|words[0]| + 1] == '>' by {
      assert Join(words, " > ") == words[0] + " > " + Join(words[1..], " > ");
    }
    SegmentsPadded(words, post);
  }

  /** `send("a > b")`. */
  lemma SendTwo(routes: Table, a: string, b: string)
    requires Word(a) && Word(b)
    ensures Sent(routes, a + " > " + b) == Link(routes, a, b)
  {
    var ws := [a, b];
    assert ws[1..] == [b];
    assert Join(ws, " > ") + [] == a + " > " + b;
    assert forall i | 0 <= i < 2 :: Word(ws[i]);
    SendWords(routes, ws, []);
  }

  /** `send("a > b > c" + post)`. */
  lemma SendThree(routes: Table, a: string, b: string, c: string, post: string)
    requires Word(a) && Word(b) && Word(c) && AllSpace(post)
    ensures Sent(routes, a + " > " + b + " > " + c + post) == Link(Link(routes, a, b), b, c)
  {
    var ws := [a, b, c];
    assert ws[1..] == [b, c] && [b, c][1..] == [c];
    assert Join([b, c], " > ") == b + " > " + c;
    assert Join(ws, " > ") == a + " > " + (b + " > " + c);
    assert Join(ws, " > ") + post == a + " > " + b + " > " + c + post;
    assert forall i | 0 <= i < 3 :: Word(ws[i]);
    SendWords(routes, ws, post);
    assert Relay(routes, ws, 1) == Link(routes, a, b);
  }

  /** The links of router.py's first test, in order. */
  lemma SimpleLinks(a: string, b: string, c: string, d: string, h: string)
    requires a != b
    ensures Link(Link(Link(Link(map[], a, b), b, c), b, d), a, h) == map[a := b + " " + h, b := c + " " + d]
  {
    var t1 := Link(Link(map[], a, b), b, c);
    assert t1 == map[a := b, b := c];
    var t2 := Link(t1, b, d);
    assert t2 == map[a := b, b := c + " " + d];
  }

  /** The links of router.py's second test, in order. */
  lemma FunctionLikeLinks(g: string, p: string, h: string, w: string)
    requires g != p
    ensures Link(Link(Link(Link(map[], g, p), p, h), g, p), p, w) == map[g := p + " " + p, p := h + " " + w]
  {
    var t1 := Link(Link(map[], g, p), p, h);
    assert t1 == map[g := p, p := h];
    var t2 := Link(t1, g, p);
    assert t2 == map[g := p + " " + p, p := h];
  }

  /**
   * router.py's first test on any words: `a > b > c` with a trailing space,
   * then `b > d`, then `a > h`.  The space is stripped, and `b` and then `a`
   * are appended to rather than overwritten.
   */
  lemma SimpleRoutingWords(a: string, b: string, c: string, d: string, h: string)
    requires Word(a) && Word(b) && Word(c) && Word(d) && Word(h) && a != b
    ensures var l1 := a + " > " + b + " > " + c + " ";
      var l2 := b + " > " + d;
      var l3 := a + " > " + h;
      Sent(Sent(Sent(map[], l1), l2), l3) == map[a := b + " " + h, b := c + " " + d]
  {
    var l1 := a + " > " + b + " > " + c + " ";
    var t1 := Link(Link(map[], a, b), b, c);
    assert AllSpace(" ");
    SendThree(map[], a, b, c, " ");
    SendTwo(t1, b, d);
    SendTwo(Link(t1, b, d), a, h);
    SimpleLinks(a, b, c, d, h);
  }

  /**
   * router.py's second test on any words: `g > p > h`, then `g > p > w`.
   * Both sources accumulate their targets.
   */
  lemma FunctionLikeWords(g: string, p: string, h: string, w: string)
    requires Word(g) && Word(p) && Word(h) && Word(w) && g != p
    ensures var l1 := g + " > " + p + " > " + h;
      var l2 := g + " > " + p + " > " + w;
      Sent(Sent(map[], l1), l2) == map[g := p + " " + p, p := h + " " + w]
  {
    var none: string := [];
    var l1 := g + " > " + p + " > " + h;
    var l2 := g + " > " + p + " > " + w;
    var t1 := Link(Link(map[], g, p), p, h);
    assert AllSpace(none) && l1 + none == l1 && l2 + none == l2;
    SendThree(map[], g, p, h, none);
    SendThree(t1, g, p, w, none);
    FunctionLikeLinks(g, p, h, w);
  }

  /** The first test, `A > B > C `, `B > D`, `A > hello`, run on a `Router` object. */
  method TestSimpleRouting() returns (routes: Table)
    ensures routes == map["A" := "B hello", "B" := "C D"]
  {
    var a, b, c, d, h := "A", "B", "C", "D", "hello";
    var r := new Router();
    r.Send(a + " > " + b + " > " + c + " ");
    r.Send(b + " > " + d);
    r.Send(a + " > " + h);
    SimpleRoutingWords(a, b, c, d, h);
    assert b + " " + h == "B hello" && c + " " + d == "C D";
    routes := r.routes;
  }

  /** The second test, `greeter > print > hello`, `greeter > print > world`, run on a `Router` object. */
  method TestFunctionLike() returns (routes: Table)
    ensures routes == map["greeter" := "print print", "print" := "hello world"]
  {
    var g, p, h, w := "greeter", "print", "hello", "world";
    var r := new Router();
    r.Send(g + " > " + p + " > " + h);
    r.Send(g + " > " + p + " > " + w);
    FunctionLikeWords(g, p, h, w);
    assert p + " " + p == "print print" && h + " " + w == "hello world";
    routes := r.routes;
  }
}
