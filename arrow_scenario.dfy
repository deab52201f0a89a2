/**
 * The test program at the bottom of arrow.py, run end to end on the model:
 * two blocks define `funcwithsecret` and `getsecret`, and the last line sets
 * off a chain of three routes that ends in printing `hello world`.
 *
 * The program text is built from its lines: a statement line is an indent
 * followed by its segments joined by `" > "`, and the lines are joined by
 * newlines, with the blank lines of the original.  The words of the program
 * are kept abstract (`Vocab`): every lemma holds for any words with the
 * properties `Fits` lists, and `TestWords` are the words arrow.py uses.
 */
module ArrowScenario {
  import opened Text
  import opened Blocks
  import opened Arrow
  import opened ArrowFacts

  /** A segment as the program writes it: non-empty, unpadded, without `>` or a newline. */
  predicate Word(w: string) {
    |w| > 0 && Trimmed(w) && '>' !in w && '\n' !in w
  }

  predicate Words(ws: seq<string>) {
    |ws| > 0 && forall i | 0 <= i < |ws| :: Word(ws[i])
  }

  /** A statement `w0 > w1 > ...`. */
  function Stmt(words: seq<string>): string {
    Join(words, " > ")
  }

  /** One line of program text. */
  datatype SourceLine = Blank | Statement(indent: string, words: seq<string>)

  function LineText(l: SourceLine): string {
    match l
    case Blank => ""
    case Statement(indent, words) => indent + Stmt(words)
  }

  /** A line the filter reads as its statement: a whitespace indent and a statement not starting with `#`. */
  predicate GoodLine(l: SourceLine) {
    l.Statement? ==> AllSpace(l.indent) && '\n' !in l.indent && Words(l.words) && l.words[0][0] != '#'
  }

  predicate AllGood(ls: seq<SourceLine>) {
    forall i | 0 <= i < |ls| :: GoodLine(ls[i])
  }

  /** The raw text of each line. */
  function Texts(ls: seq<SourceLine>): (r: seq<string>)
    ensures |r| == |ls| && forall i | 0 <= i < |ls| :: r[i] == LineText(ls[i])
  {
    if ls == [] then [] else [LineText(ls[0])] + Texts(ls[1..])
  }

  /** The statements, in order, without the blank lines. */
  function Stmts(ls: seq<SourceLine>): seq<string> {
    if ls == [] then []
    else (if ls[0].Blank? then [] else [Stmt(ls[0].words)]) + Stmts(ls[1..])
  }

  lemma {:induction false} StmtsAppend(a: seq<SourceLine>, b: seq<SourceLine>)
    ensures Stmts(a + b) == Stmts(a) + Stmts(b)
  {
    if a != [] {
      assert (a + b)[0] == a[0];
      assert (a + b)[1..] == a[1..] + b;
      StmtsAppend(a[1..], b);
    } else {
      assert a + b == b;
    }
  }

  // ---------------------------------------------------------------------------
  // Statements
  // ---------------------------------------------------------------------------

  /** What the verifier needs to know about a statement. */
  lemma StmtFacts(ws: seq<string>)
    requires Words(ws)
    ensures var s := Stmt(ws);
      && Segments(s) == ws
      && |s| > 0 && s[0] == ws[0][0] && s[|s| - 1] == ws[|ws| - 1][|ws[|ws| - 1]| - 1]
      && Trimmed(s) && '\n' !in s
  {
    SegmentsOfJoin(ws);
    JoinEnds(ws, " > ");
    JoinAvoids(ws, " > ", '\n');
  }

  /** The filter turns a good line into its statement, or drops it when blank. */
  lemma LineKept(l: SourceLine)
    requires GoodLine(l)
    ensures '\n' !in LineText(l)
    ensures l.Blank? ==> Strip(LineText(l)) == "" && !Keep("")
    ensures l.Statement? ==> Strip(LineText(l)) == Stmt(l.words) && Keep(Stmt(l.words))
  {
    match l
    case Blank =>
      StripPadded([], [], []);
    case Statement(indent, ws) =>
      StmtFacts(ws);
      StripPadded(indent, Stmt(ws), []);
      assert indent + Stmt(ws) + [] == indent + Stmt(ws);
      StartsWithChar(Stmt(ws), '#');
  }

  /** Filtering the raw lines of good source lines leaves exactly their statements. */
  lemma {:induction false} KeptTexts(ls: seq<SourceLine>)
    requires AllGood(ls)
    ensures Kept(Texts(ls)) == Stmts(ls)
  {
    if ls != [] {
      var t := Texts(ls);
      assert t[0] == LineText(ls[0]);
      assert t[1..] == Texts(ls[1..]);
      assert AllGood(ls[1..]) by {
        forall i | 0 <= i < |ls| - 1 ensures ls[1..][i] == ls[i + 1] { }
      }
      KeptTexts(ls[1..]);
      LineKept(ls[0]);
    }
  }

  /** The program text `"\n".join(...)` of good lines splits back into its lines and filters to its statements. */
  lemma ReadLines(ls: seq<SourceLine>)
    requires |ls| > 0 && AllGood(ls)
    ensures CleanLines(Join(Texts(ls), "\n")) == Stmts(ls)
  {
    var t := Texts(ls);
    forall i | 0 <= i < |t| ensures '\n' !in t[i] {
      LineKept(ls[i]);
    }
    SplitJoin(t, '\n');
    KeptTexts(ls);
  }

  // ---------------------------------------------------------------------------
  // The words of the test program
  // ---------------------------------------------------------------------------

  /** The distinct words `test_code` is written with. */
  datatype Vocab = Vocab(
    indent: string, opener: string, closer: string,
    func: string, get: string, secret: string, quoted: string, hello: string,
    yes: string, relay: string, printer: string,
    arg0: string, arg1: string, atSecret: string)

  /** The words of arrow.py's `test_code`. */
  function TestWords(): Vocab {
    Vocab("    ", "{", "}",
          "funcwithsecret", "getsecret", "secret", "\"hello world\"", "hello world",
          "true", "setpublicsecret", "systemPrint",
          "arg0", "arg1", "@secret")
  }

  function Last(w: string): char
    requires |w| > 0
  {
    w[|w| - 1]
  }

  /** Every word is a segment, the indent is whitespace, and no statement starts with `#`. */
  predicate WordsFit(v: Vocab) {
    && Word(v.opener) && Word(v.closer) && Word(v.func) && Word(v.get) && Word(v.secret)
    && Word(v.quoted) && Word(v.hello) && Word(v.yes) && Word(v.relay) && Word(v.printer)
    && Word(v.arg0) && Word(v.arg1) && Word(v.atSecret)
    && AllSpace(v.indent) && '\n' !in v.indent
    && v.func[0] != '#' && v.get[0] != '#' && v.secret[0] != '#' && v.yes[0] != '#'
    && v.relay[0] != '#' && v.closer[0] != '#'
  }

  /** Only the two headers end in `{`, and only the closing line starts with `}`. */
  predicate BracesFit(v: Vocab)
    requires WordsFit(v)
  {
    && Last(v.opener) == '{' && v.closer[0] == '}' && Last(v.closer) != '{'
    && Last(v.quoted) != '{' && Last(v.atSecret) != '{' && Last(v.relay) != '{'
    && Last(v.arg0) != '{' && Last(v.yes) != '{'
    && v.secret[0] != '}' && v.yes[0] != '}' && v.relay[0] != '}' && v.get[0] != '}'
  }

  /** The secret is a quoted string; `true` is neither a number nor quoted; only `systemPrint` prints. */
  predicate ValuesFit(v: Vocab) {
    && IsQuoted(v.quoted) && !IsDigits(v.quoted) && Unquote(v.quoted) == v.hello
    && !IsDigits(v.yes) && !IsQuoted(v.yes)
    && v.printer == "systemPrint" && v.get != "systemPrint" && v.func != "systemPrint"
  }

  /** The two targets and the three route keys are distinct. */
  predicate KeysFit(v: Vocab) {
    && v.func != v.get
    && RouteKey(v.func, v.yes) != RouteKey(v.get, v.yes)
    && RouteKey(v.func, v.yes) != RouteKey(v.get, v.relay)
    && RouteKey(v.get, v.yes) != RouteKey(v.get, v.relay)
  }

  /** The placeholders, and the words their first characters do not occur in. */
  predicate PlaceholdersFit(v: Vocab)
    requires WordsFit(v)
  {
    && v.atSecret == "@" + v.secret && v.arg0 == ArgName(0) && v.arg1 == ArgName(1)
    && |v.arg1| == |v.arg0| && v.arg1 != v.arg0
    && '@' !in v.arg0 && '@' !in v.arg1 && v.hello[0] != '@'
    && 'a' !in v.arg1[1..] && 'a' !in v.hello && 'a' !in v.get && 'a' !in v.printer
  }

  /** What the proofs below need of the words. */
  predicate Fits(v: Vocab) {
    WordsFit(v) && BracesFit(v) && ValuesFit(v) && KeysFit(v) && PlaceholdersFit(v)
  }

  // ---------------------------------------------------------------------------
  // The test program
  // ---------------------------------------------------------------------------

  /** The first block: a binding and a route for `funcwithsecret`. */
  function Block1(v: Vocab): seq<SourceLine> {
    [Statement("", [v.func, v.opener]),
     Statement(v.indent, [v.secret, v.quoted]),
     Statement(v.indent, [v.yes, v.arg0, v.arg1, v.atSecret]),
     Statement("", [v.closer])]
  }

  /** The second block: two routes for `getsecret`. */
  function Block2(v: Vocab): seq<SourceLine> {
    [Statement("", [v.get, v.opener]),
     Statement(v.indent, [v.yes, v.func, v.yes, v.get, v.relay]),
     Statement(v.indent, [v.relay, v.printer, v.arg0]),
     Statement("", [v.closer])]
  }

  /** The lines of `test_code`, from the empty line after the opening quotes to the empty one before the closing quotes. */
  function Program(v: Vocab): seq<SourceLine> {
    [Blank] + Block1(v) + [Blank] + Block2(v) + [Statement("", [v.get, v.yes]), Blank]
  }

  /** `test_code`, for the words `TestWords()`. */
  function ProgramText(v: Vocab): string {
    Join(Texts(Program(v)), "\n")
  }

  /** A statement line whose indent is whitespace and whose first word does not start with `#`. */
  lemma GoodStatement(indent: string, ws: seq<string>)
    requires AllSpace(indent) && '\n' !in indent
    requires Words(ws) && ws[0][0] != '#'
    ensures GoodLine(Statement(indent, ws))
  {
  }

  lemma Block1Good(v: Vocab)
    requires WordsFit(v)
    ensures AllGood(Block1(v))
  {
    var b := Block1(v);
    GoodStatement("", [v.func, v.opener]);
    GoodStatement(v.indent, [v.secret, v.quoted]);
    GoodStatement(v.indent, [v.yes, v.arg0, v.arg1, v.atSecret]);
    GoodStatement("", [v.closer]);
    assert GoodLine(b[0]) && GoodLine(b[1]) && GoodLine(b[2]) && GoodLine(b[3]);
  }

  lemma Block2Good(v: Vocab)
    requires WordsFit(v)
    ensures AllGood(Block2(v))
  {
    var b := Block2(v);
    GoodStatement("", [v.get, v.opener]);
    GoodStatement(v.indent, [v.yes, v.func, v.yes, v.get, v.relay]);
    GoodStatement(v.indent, [v.relay, v.printer, v.arg0]);
    GoodStatement("", [v.closer]);
    assert GoodLine(b[0]) && GoodLine(b[1]) && GoodLine(b[2]) && GoodLine(b[3]);
  }

  lemma AllGoodAppend(a: seq<SourceLine>, b: seq<SourceLine>)
    requires AllGood(a) && AllGood(b)
    ensures AllGood(a + b)
  {
    forall i | 0 <= i < |a + b| ensures GoodLine((a + b)[i]) {
      if i >= |a| {
        assert (a + b)[i] == b[i - |a|];
      }
    }
  }

  lemma ProgramGood(v: Vocab)
    requires WordsFit(v)
    ensures AllGood(Program(v))
  {
    var call := [Statement("", [v.get, v.yes]), Blank];
    Block1Good(v);
    Block2Good(v);
    GoodStatement("", [v.get, v.yes]);
    assert AllGood(call) by {
      assert GoodLine(call[0]) && GoodLine(call[1]);
    }
    AllGoodAppend([Blank], Block1(v));
    AllGoodAppend([Blank] + Block1(v), [Blank]);
    AllGoodAppend([Blank] + Block1(v) + [Blank], Block2(v));
    AllGoodAppend([Blank] + Block1(v) + [Blank] + Block2(v), call);
  }

  // ---------------------------------------------------------------------------
  // Filtering the program text
  // ---------------------------------------------------------------------------

  function Header1(v: Vocab): string {
    Stmt([v.func, v.opener])
  }

  function Secret(v: Vocab): string {
    Stmt([v.secret, v.quoted])
  }

  function TrueRoute(v: Vocab): string {
    Stmt([v.yes, v.arg0, v.arg1, v.atSecret])
  }

  function Closer(v: Vocab): string {
    Stmt([v.closer])
  }

  function Header2(v: Vocab): string {
    Stmt([v.get, v.opener])
  }

  function ChainRoute(v: Vocab): string {
    Stmt([v.yes, v.func, v.yes, v.get, v.relay])
  }

  function PrintRoute(v: Vocab): string {
    Stmt([v.relay, v.printer, v.arg0])
  }

  /** The last line, `getsecret > true`. */
  function Call(v: Vocab): string {
    Stmt([v.get, v.yes])
  }

  /** The two blocks as `_parse_blocks` groups them. */
  function Group1(v: Vocab): seq<string> {
    [Header1(v), Secret(v), TrueRoute(v), Closer(v)]
  }

  function Group2(v: Vocab): seq<string> {
    [Header2(v), ChainRoute(v), PrintRoute(v), Closer(v)]
  }

  /** The statements of a four-line block. */
  lemma StmtsFour(b: seq<SourceLine>)
    requires |b| == 4 && b[0].Statement? && b[1].Statement? && b[2].Statement? && b[3].Statement?
    ensures Stmts(b) == [Stmt(b[0].words), Stmt(b[1].words), Stmt(b[2].words), Stmt(b[3].words)]
  {
    var none: seq<SourceLine> := [];
    assert b[3..][1..] == none;
    assert Stmts(b[3..]) == [Stmt(b[3].words)];
    assert b[2..][1..] == b[3..];
    assert Stmts(b[2..]) == [Stmt(b[2].words)] + Stmts(b[3..]);
    assert b[1..][1..] == b[2..];
    assert Stmts(b[1..]) == [Stmt(b[1].words)] + Stmts(b[2..]);
    assert Stmts(b) == [Stmt(b[0].words)] + Stmts(b[1..]);
  }

  /** The statements of the program: the two blocks and the call. */
  lemma ProgramStmts(v: Vocab)
    ensures Stmts(Program(v)) == Group1(v) + Group2(v) + [Call(v)]
  {
    var b1, b2 := Block1(v), Block2(v);
    var blank: seq<SourceLine> := [Blank];
    var a := blank + b1;
    var b := a + blank;
    var c := b + b2;
    var tail := [Statement("", [v.get, v.yes]), Blank];
    StmtsFour(b1);
    StmtsFour(b2);
    assert Stmts(blank) == [] by {
      assert blank[1..] == [];
    }
    StmtsAppend(blank, b1);
    StmtsAppend(a, blank);
    StmtsAppend(b, b2);
    StmtsAppend(c, tail);
    assert Stmts(tail) == [Call(v)] by {
      assert tail[1..] == blank;
    }
    assert Program(v) == c + tail;
  }

  /** The filter keeps the statements of the two blocks and the call. */
  lemma CleanProgram(v: Vocab)
    requires WordsFit(v)
    ensures CleanLines(ProgramText(v)) == Group1(v) + Group2(v) + [Call(v)]
  {
    ProgramGood(v);
    ReadLines(Program(v));
    ProgramStmts(v);
  }

  // ---------------------------------------------------------------------------
  // Splitting the program into blocks
  // ---------------------------------------------------------------------------

  /** Whether a statement opens or closes a brace depends on its last and first characters. */
  lemma StmtBraces(ws: seq<string>)
    requires Words(ws)
    ensures IsOpener(Stmt(ws)) <==> Last(ws[|ws| - 1]) == '{'
    ensures StartsWith(Stmt(ws), "}") <==> ws[0][0] == '}'
  {
    StmtFacts(ws);
    EndsWithChar(Stmt(ws), '{');
    StartsWithChar(Stmt(ws), '}');
  }

  lemma Group1Shape(v: Vocab)
    requires WordsFit(v) && BracesFit(v)
    ensures IsOpener(Header1(v)) && Neutral(Secret(v)) && Neutral(TrueRoute(v)) && IsCloser(Closer(v))
  {
    StmtBraces([v.func, v.opener]);
    StmtBraces([v.secret, v.quoted]);
    StmtBraces([v.yes, v.arg0, v.arg1, v.atSecret]);
    StmtBraces([v.closer]);
  }

  lemma Group2Shape(v: Vocab)
    requires WordsFit(v) && BracesFit(v)
    ensures IsOpener(Header2(v)) && Neutral(ChainRoute(v)) && Neutral(PrintRoute(v)) && Neutral(Call(v))
  {
    StmtBraces([v.get, v.opener]);
    StmtBraces([v.yes, v.func, v.yes, v.get, v.relay]);
    StmtBraces([v.relay, v.printer, v.arg0]);
    StmtBraces([v.get, v.yes]);
  }

  /** A group: an opener, neutral lines and a closer. */
  predicate GroupShape(g: seq<string>) {
    && |g| >= 2 && IsOpener(g[0]) && IsCloser(g[|g| - 1])
    && forall i | 0 < i < |g| - 1 :: Neutral(g[i])
  }

  /** With nothing open and nothing collected, a whole group is emitted as one block. */
  lemma ScanWholeGroup(prefix: seq<string>, bs: seq<Block>, g: seq<string>)
    requires Scan(prefix) == Ok(Splitter(bs, [], [])) && GroupShape(g)
    ensures Scan(prefix + g) == Ok(Splitter(bs + [Group(g)], [], []))
  {
    var body := g[1..|g| - 1];
    assert forall i | 0 <= i < |body| :: Neutral(body[i]) by {
      forall i | 0 <= i < |body| ensures body[i] == g[i + 1] { }
    }
    ScanGroup(prefix, bs, g[0], body, g[|g| - 1]);
    assert [g[0]] + body + [g[|g| - 1]] == g;
  }

  /** Two groups from the start: two group blocks, nothing open, nothing collected. */
  lemma ScanTwoGroups(g1: seq<string>, g2: seq<string>)
    requires GroupShape(g1) && GroupShape(g2)
    ensures Scan(g1 + g2) == Ok(Splitter([Group(g1), Group(g2)], [], []))
  {
    var none: seq<Block> := [];
    var empty: seq<string> := [];
    assert Scan(empty) == Ok(Splitter(none, [], []));
    ScanWholeGroup(empty, none, g1);
    assert empty + g1 == g1 && none + [Group(g1)] == [Group(g1)];
    ScanWholeGroup(g1, [Group(g1)], g2);
    assert [Group(g1)] + [Group(g2)] == [Group(g1), Group(g2)];
  }

  /** Two groups, then a neutral line: two groups and one single block. */
  lemma SplitTwoGroups(g1: seq<string>, g2: seq<string>, call: string)
    requires GroupShape(g1) && GroupShape(g2) && Neutral(call)
    ensures SplitBlocks(g1 + g2 + [call]) == Ok([Group(g1), Group(g2), Single(call)])
  {
    var bs := [Group(g1), Group(g2)];
    var x := g1 + g2;
    var none: seq<string> := [];
    ScanTwoGroups(g1, g2);
    ScanNeutral(x, [call]);
    assert none + [call] == [call];
    var singles := Singles([call]);
    assert singles == [Single(call)];
    assert bs + singles == [Group(g1), Group(g2), Single(call)];
  }

  lemma GroupsShaped(v: Vocab)
    requires WordsFit(v) && BracesFit(v)
    ensures GroupShape(Group1(v)) && GroupShape(Group2(v)) && Neutral(Call(v))
  {
    Group1Shape(v);
    Group2Shape(v);
    var g1, g2 := Group1(v), Group2(v);
    assert forall i | 0 < i < |g1| - 1 :: Neutral(g1[i]) by {
      assert g1[1] == Secret(v) && g1[2] == TrueRoute(v);
    }
    assert forall i | 0 < i < |g2| - 1 :: Neutral(g2[i]) by {
      assert g2[1] == ChainRoute(v) && g2[2] == PrintRoute(v);
    }
  }

  /** `_parse_blocks(test_code)`: the two groups, then the call as a single block. */
  lemma ParseProgram(v: Vocab)
    requires WordsFit(v) && BracesFit(v)
    ensures SplitBlocks(CleanLines(ProgramText(v))) == Ok([Group(Group1(v)), Group(Group2(v)), Single(Call(v))])
  {
    CleanProgram(v);
    GroupsShaped(v);
    SplitTwoGroups(Group1(v), Group2(v), Call(v));
  }

  // ---------------------------------------------------------------------------
  // Defining the two blocks
  // ---------------------------------------------------------------------------

  /** A statement whose second segment is neither a digit string nor quoted (or that has not two segments) is a route line. */
  lemma RouteLine(ws: seq<string>)
    requires Words(ws) && (|ws| != 2 || (!IsDigits(ws[1]) && !IsQuoted(ws[1])))
    ensures !IsBinding(Stmt(ws)) && Key(Stmt(ws)) == ws[0]
    ensures RouteBody(Stmt(ws)) == Stmt(ws[1..])
  {
    StmtFacts(ws);
  }

  /** Reading two interior lines, one after the other. */
  lemma DefineTwo(t: string, d: Defs, l1: string, l2: string)
    ensures DefineAll(t, d, [l1, l2]) == DefineLine(t, DefineLine(t, d, l1), l2)
  {
    var ls := [l1, l2];
    DefineAllStep(t, d, ls, 0);
    DefineAllStep(t, d, ls, 1);
    assert ls[..0] == [] && ls[..1] == [l1] && ls[..2] == ls;
  }

  /** A group of a header, two interior lines and a closer. */
  lemma TwoLineGroup(s: Session, header: string, l1: string, l2: string, closer: string)
    requires IsOpener(header)
    ensures var t := Key(header);
      var d := DefineLine(t, DefineLine(t, Defs([], s.routes), l1), l2);
      DefineGroup(s, [header, l1, l2, closer]) == s.(routes := d.routes, scopes := s.scopes[t := d.scope])
  {
    var g := [header, l1, l2, closer];
    assert Interior(g) == [l1, l2] by {
      assert g[0] == header && g[1..|g| - 1] == [l1, l2];
    }
    DefineTwo(Key(header), Defs([], s.routes), l1, l2);
  }

  /** The rule `funcwithsecret.true` stores. */
  function FuncRule(v: Vocab): string {
    Stmt([v.arg0, v.arg1, v.atSecret])
  }

  /** The rules `getsecret.true` and `getsecret.setpublicsecret` store. */
  function ChainRule(v: Vocab): string {
    Stmt([v.func, v.yes, v.get, v.relay])
  }

  function PrintRule(v: Vocab): string {
    Stmt([v.printer, v.arg0])
  }

  /** The scope of `funcwithsecret`. */
  function SecretScope(v: Vocab): Scope {
    [(v.secret, Str(v.hello))]
  }

  /** `secret > "hello world"` binds the string `hello world`. */
  lemma SecretBinds(v: Vocab)
    requires WordsFit(v) && ValuesFit(v)
    ensures IsBinding(Secret(v)) && Key(Secret(v)) == v.secret && Literal(Secret(v)) == Str(v.hello)
  {
    StmtFacts([v.secret, v.quoted]);
  }

  lemma Block1Routes(v: Vocab)
    requires WordsFit(v)
    ensures !IsBinding(TrueRoute(v)) && Key(TrueRoute(v)) == v.yes && RouteBody(TrueRoute(v)) == FuncRule(v)
    ensures Key(Header1(v)) == v.func
  {
    var ws := [v.yes, v.arg0, v.arg1, v.atSecret];
    RouteLine(ws);
    assert ws[1..] == [v.arg0, v.arg1, v.atSecret];
    StmtFacts([v.func, v.opener]);
  }

  lemma Block2Routes(v: Vocab)
    requires WordsFit(v)
    ensures !IsBinding(ChainRoute(v)) && Key(ChainRoute(v)) == v.yes && RouteBody(ChainRoute(v)) == ChainRule(v)
    ensures !IsBinding(PrintRoute(v)) && Key(PrintRoute(v)) == v.relay && RouteBody(PrintRoute(v)) == PrintRule(v)
    ensures Key(Header2(v)) == v.get
  {
    var c := [v.yes, v.func, v.yes, v.get, v.relay];
    var p := [v.relay, v.printer, v.arg0];
    RouteLine(c);
    RouteLine(p);
    assert c[1..] == [v.func, v.yes, v.get, v.relay];
    assert p[1..] == [v.printer, v.arg0];
    StmtFacts([v.get, v.opener]);
  }

  /** What the first block leaves: its scope holds `secret`, and `funcwithsecret.true` is its route. */
  function AfterBlock1(v: Vocab): Session {
    Session(map[RouteKey(v.func, v.yes) := FuncRule(v)], map[], map[v.func := SecretScope(v)], [])
  }

  /** What both blocks leave: `getsecret` gets an empty scope and two routes. */
  function AfterBlocks(v: Vocab): Session {
    Session(
      map[RouteKey(v.func, v.yes) := FuncRule(v),
          RouteKey(v.get, v.yes) := ChainRule(v),
          RouteKey(v.get, v.relay) := PrintRule(v)],
      map[],
      map[v.func := SecretScope(v), v.get := []],
      [])
  }

  lemma DefineBlock1(v: Vocab)
    requires WordsFit(v) && BracesFit(v) && ValuesFit(v)
    ensures DefineGroup(Fresh, Group1(v)) == AfterBlock1(v)
  {
    Group1Shape(v);
    TwoLineGroup(Fresh, Header1(v), Secret(v), TrueRoute(v), Closer(v));
    SecretBinds(v);
    Block1Routes(v);
  }

  lemma DefineBlock2(v: Vocab)
    requires WordsFit(v) && BracesFit(v)
    ensures DefineGroup(AfterBlock1(v), Group2(v)) == AfterBlocks(v)
  {
    Group2Shape(v);
    TwoLineGroup(AfterBlock1(v), Header2(v), ChainRoute(v), PrintRoute(v), Closer(v));
    Block2Routes(v);
  }

  // ---------------------------------------------------------------------------
  // Following the call `getsecret > true`
  // ---------------------------------------------------------------------------

  /** The routes and scopes the call relies on. */
  predicate Defined(v: Vocab, s: Session) {
    && RouteKey(v.get, v.yes) in s.routes && s.routes[RouteKey(v.get, v.yes)] == ChainRule(v)
    && RouteKey(v.func, v.yes) in s.routes && s.routes[RouteKey(v.func, v.yes)] == FuncRule(v)
    && RouteKey(v.get, v.relay) in s.routes && s.routes[RouteKey(v.get, v.relay)] == PrintRule(v)
    && ScopeOf(s.scopes, v.get) == [] && ScopeOf(s.scopes, v.func) == SecretScope(v)
  }

  lemma AfterBlocksDefined(v: Vocab)
    requires KeysFit(v)
    ensures Defined(v, AfterBlocks(v))
  {
  }

  /** The line `funcwithsecret.true` rewrites to: arguments and variable in place. */
  function Relayed(v: Vocab): string {
    Stmt([v.get, v.relay, v.hello])
  }

  /** The line `getsecret.setpublicsecret` rewrites to. */
  function Printed(v: Vocab): string {
    Stmt([v.printer, v.hello])
  }

  lemma CallFacts(v: Vocab)
    requires WordsFit(v) && ValuesFit(v)
    ensures Segments(Call(v)) == [v.get, v.yes] && !IsBinding(Call(v))
  {
    RouteLine([v.get, v.yes]);
    StmtFacts([v.get, v.yes]);
  }

  /** The call follows `getsecret.true`, whose rule has nothing to substitute. */
  lemma CallHop(v: Vocab, s: Session, fuel: nat)
    requires Fits(v) && Defined(v, s) && fuel > 0
    ensures Dispatch(s, Call(v), fuel) == Dispatch(s, ChainRule(v), fuel - 1)
  {
    CallFacts(v);
    var parts := Segments(Call(v));
    assert RouteKeyOf(parts) == RouteKey(v.get, v.yes);
    assert Args(parts) == [];
    DispatchFollows(s, Call(v), fuel);
  }

  /** Two- and three-segment statements, spelled out. */
  lemma Stmt2(a: string, b: string)
    ensures Stmt([a, b]) == (a + " > ") + b
  {
    assert [a, b][1..] == [b];
    assert Join([b], " > ") == b;
  }

  lemma Stmt3(a: string, b: string, c: string)
    ensures Stmt([a, b, c]) == (a + " > ") + (b + (" > " + c))
    ensures Stmt([a, b, c]) == (a + " > " + b + " > ") + c
  {
    assert [a, b, c][1..] == [b, c] && [b, c][1..] == [c];
    assert Join([c], " > ") == c;
    assert Join([b, c], " > ") == b + " > " + c;
    assert Stmt([a, b, c]) == (a + " > ") + ((b + " > ") + c);
    assert (b + " > ") + c == b + (" > " + c);
    assert (a + " > ") + ((b + " > ") + c) == (a + " > " + b + " > ") + c;
  }

  /** Replacing a placeholder that ends a two-segment statement. */
  lemma ReplaceLastOfTwo(w0: string, pat: string, sub: string)
    requires |pat| > 0 && pat[0] !in w0 && pat[0] !in " > "
    ensures Replace(Stmt([w0, pat]), pat, sub) == Stmt([w0, sub])
  {
    var pre := w0 + " > ";
    Stmt2(w0, pat);
    Stmt2(w0, sub);
    assert pat[0] !in pre;
    ReplaceSkip(pre, pat, pat, sub);
    ReplaceHit([], pat, sub);
    assert pat + [] == pat && sub + [] == sub;
  }

  /** Replacing a placeholder that ends a three-segment statement. */
  lemma ReplaceLastSegment(w0: string, w1: string, pat: string, sub: string)
    requires |pat| > 0 && pat[0] !in w0 && pat[0] !in w1 && pat[0] !in " > "
    ensures Replace(Stmt([w0, w1, pat]), pat, sub) == Stmt([w0, w1, sub])
  {
    var pre := w0 + " > " + w1 + " > ";
    Stmt3(w0, w1, pat);
    Stmt3(w0, w1, sub);
    assert pat[0] !in pre;
    ReplaceSkip(pre, pat, pat, sub);
    ReplaceHit([], pat, sub);
    assert pat + [] == pat && sub + [] == sub;
  }

  /** Replacing a placeholder that starts a three-segment statement, when the second segment is a near miss. */
  lemma ReplaceFirstSegment(pat: string, w1: string, w2: string, sub: string)
    requires |pat| > 0 && |w1| == |pat| && w1 != pat
    requires pat[0] !in w1[1..] && pat[0] !in w2 && pat[0] !in " > "
    ensures Replace(Stmt([pat, w1, w2]), pat, sub) == Stmt([sub, w1, w2])
  {
    var tail := " > " + w2;
    var rest := " > " + (w1 + tail);
    Stmt3(pat, w1, w2);
    Stmt3(sub, w1, w2);
    assert (pat + " > ") + (w1 + tail) == pat + rest;
    assert (sub + " > ") + (w1 + tail) == sub + rest;
    ReplaceHit(rest, pat, sub);
    ReplaceSkip(" > ", w1 + tail, pat, sub);
    ReplaceNearMiss(w1, tail, pat, sub);
    ReplaceNone(tail, pat, sub);
  }

  /** Replacing a placeholder in the middle of a three-segment statement. */
  lemma ReplaceMiddleSegment(w0: string, pat: string, w2: string, sub: string)
    requires |pat| > 0 && pat[0] !in w0 && pat[0] !in w2 && pat[0] !in " > "
    ensures Replace(Stmt([w0, pat, w2]), pat, sub) == Stmt([w0, sub, w2])
  {
    var pre := w0 + " > ";
    var tail := " > " + w2;
    Stmt3(w0, pat, w2);
    Stmt3(w0, sub, w2);
    assert pat[0] !in pre;
    ReplaceSkip(pre, pat + tail, pat, sub);
    ReplaceHit(tail, pat, sub);
    ReplaceNone(tail, pat, sub);
  }

  /** `@secret` in the rule of `funcwithsecret.true` becomes `hello world`. */
  lemma SecretReplaced(v: Vocab)
    requires WordsFit(v) && PlaceholdersFit(v)
    ensures ReplaceVars(FuncRule(v), SecretScope(v)) == Stmt([v.arg0, v.arg1, v.hello])
  {
    assert SecretScope(v)[..0] == [];
    assert v.atSecret[0] == '@';
    ReplaceLastSegment(v.arg0, v.arg1, v.atSecret, v.hello);
  }

  /** `_substitute` on the rule of `funcwithsecret.true`: the variable first, then `arg0` (which `arg1` does not match), then `arg1`. */
  lemma FuncSubstituted(v: Vocab)
    requires WordsFit(v) && PlaceholdersFit(v)
    ensures Substituted(SecretScope(v), FuncRule(v), [v.get, v.relay]) == Relayed(v)
  {
    SecretReplaced(v);
    TwoArguments(Stmt([v.arg0, v.arg1, v.hello]), v.get, v.relay);
    assert v.arg0[0] == 'a' && v.arg1[0] == 'a';
    ReplaceFirstSegment(v.arg0, v.arg1, v.hello, v.get);
    ReplaceMiddleSegment(v.get, v.arg1, v.hello, v.relay);
  }

  lemma ChainFacts(v: Vocab)
    requires WordsFit(v)
    ensures Segments(ChainRule(v)) == [v.func, v.yes, v.get, v.relay] && !IsBinding(ChainRule(v))
  {
    var ws := [v.func, v.yes, v.get, v.relay];
    RouteLine(ws);
    StmtFacts(ws);
  }

  /** The rule of `getsecret.true` follows `funcwithsecret.true` with two arguments, in that block's scope. */
  lemma ChainHop(v: Vocab, s: Session, fuel: nat)
    requires Fits(v) && Defined(v, s) && fuel > 0
    ensures Dispatch(s, ChainRule(v), fuel) == Dispatch(s, Relayed(v), fuel - 1)
  {
    ChainFacts(v);
    var parts := Segments(ChainRule(v));
    assert RouteKeyOf(parts) == RouteKey(v.func, v.yes);
    assert Args(parts) == [v.get, v.relay];
    FuncSubstituted(v);
    DispatchFollows(s, ChainRule(v), fuel);
  }

  lemma RelayedFacts(v: Vocab)
    requires WordsFit(v)
    ensures Segments(Relayed(v)) == [v.get, v.relay, v.hello] && !IsBinding(Relayed(v))
  {
    var ws := [v.get, v.relay, v.hello];
    RouteLine(ws);
    StmtFacts(ws);
  }

  /** `arg0` in the rule of `getsecret.setpublicsecret` becomes `hello world`. */
  lemma PrintSubstituted(v: Vocab)
    requires WordsFit(v) && PlaceholdersFit(v)
    ensures Substituted([], PrintRule(v), [v.hello]) == Printed(v)
  {
    var args := [v.hello];
    assert args[..0] == [];
    assert ReplaceArgs(PrintRule(v), args) == Replace(PrintRule(v), ArgName(0), v.hello);
    assert v.arg0[0] == 'a';
    ReplaceLastOfTwo(v.printer, v.arg0, v.hello);
  }

  /** `getsecret > setpublicsecret > hello world` follows `getsecret.setpublicsecret`. */
  lemma RelayHop(v: Vocab, s: Session, fuel: nat)
    requires Fits(v) && Defined(v, s) && fuel > 0
    ensures Dispatch(s, Relayed(v), fuel) == Dispatch(s, Printed(v), fuel - 1)
  {
    RelayedFacts(v);
    var parts := Segments(Relayed(v));
    assert RouteKeyOf(parts) == RouteKey(v.get, v.relay);
    assert Args(parts) == [v.hello];
    PrintSubstituted(v);
    DispatchFollows(s, Relayed(v), fuel);
  }

  /** `systemPrint > hello world` prints `hello world`: it names no value, so it is printed as written. */
  lemma PrintHop(v: Vocab, s: Session, fuel: nat)
    requires WordsFit(v) && ValuesFit(v) && PlaceholdersFit(v)
    ensures Dispatch(s, Printed(v), fuel) == Some(s.(output := s.output + [v.hello]))
  {
    StmtFacts([v.printer, v.hello]);
    StartsWithChar(v.hello, '@');
    DispatchPrints(s, Printed(v), fuel);
  }

  /** With three hops of fuel the call prints `hello world`. */
  lemma CallPrints(v: Vocab, s: Session, fuel: nat)
    requires Fits(v) && Defined(v, s) && fuel >= 3
    ensures Dispatch(s, Call(v), fuel) == Some(s.(output := s.output + [v.hello]))
  {
    CallHop(v, s, fuel);
    ChainPrints(v, s, fuel - 1);
  }

  lemma ChainPrints(v: Vocab, s: Session, fuel: nat)
    requires Fits(v) && Defined(v, s) && fuel >= 2
    ensures Dispatch(s, ChainRule(v), fuel) == Some(s.(output := s.output + [v.hello]))
  {
    ChainHop(v, s, fuel);
    RelayPrints(v, s, fuel - 1);
  }

  lemma RelayPrints(v: Vocab, s: Session, fuel: nat)
    requires Fits(v) && Defined(v, s) && fuel >= 1
    ensures Dispatch(s, Relayed(v), fuel) == Some(s.(output := s.output + [v.hello]))
  {
    RelayHop(v, s, fuel);
    PrintHop(v, s, fuel - 1);
  }

  /** With fewer, the chain is too deep and the call raises `RecursionError`. */
  lemma CallCutOff(v: Vocab, s: Session, fuel: nat)
    requires Fits(v) && Defined(v, s) && fuel < 3
    ensures Dispatch(s, Call(v), fuel) == None
  {
    if fuel == 0 {
      CallFacts(v);
      assert RouteKeyOf(Segments(Call(v))) == RouteKey(v.get, v.yes);
      DispatchTooDeep(s, Call(v));
    } else {
      CallHop(v, s, fuel);
      ChainCutOff(v, s, fuel - 1);
    }
  }

  lemma ChainCutOff(v: Vocab, s: Session, fuel: nat)
    requires Fits(v) && Defined(v, s) && fuel < 2
    ensures Dispatch(s, ChainRule(v), fuel) == None
  {
    if fuel == 0 {
      ChainFacts(v);
      assert RouteKeyOf(Segments(ChainRule(v))) == RouteKey(v.func, v.yes);
      DispatchTooDeep(s, ChainRule(v));
    } else {
      ChainHop(v, s, fuel);
      RelayedFacts(v);
      assert RouteKeyOf(Segments(Relayed(v))) == RouteKey(v.get, v.relay);
      DispatchTooDeep(s, Relayed(v));
    }
  }

  /**
   * Once both blocks are defined, the call prints `hello world` if three
   * nested calls are allowed, and raises `RecursionError` otherwise.
   */
  lemma CallChain(v: Vocab, s: Session, fuel: nat)
    requires Fits(v) && Defined(v, s)
    ensures Dispatch(s, Call(v), fuel) == if fuel >= 3 then Some(s.(output := s.output + [v.hello])) else None
  {
    if fuel >= 3 {
      CallPrints(v, s, fuel);
    } else {
      CallCutOff(v, s, fuel);
    }
  }

  // ---------------------------------------------------------------------------
  // The whole run
  // ---------------------------------------------------------------------------

  /** `for block in blocks: self._process(block)` on three blocks. */
  lemma ProcessThree(s: Session, b1: Block, b2: Block, b3: Block, fuel: nat)
    requires NonEmptyGroups([b1, b2, b3])
    ensures b1.Group? ==> |b1.lines| > 0
    ensures b2.Group? ==> |b2.lines| > 0
    ensures b3.Group? ==> |b3.lines| > 0
    ensures ProcessAll(s, [b1, b2, b3], fuel) == Then(Then(Then(Outcome(None, s), b1, fuel), b2, fuel), b3, fuel)
  {
    var bs := [b1, b2, b3];
    assert bs[0] == b1 && bs[1] == b2 && bs[2] == b3;
    ProcessAllSnoc(s, bs, fuel, 0);
    ProcessAllSnoc(s, bs, fuel, 1);
    ProcessAllSnoc(s, bs, fuel, 2);
    assert bs[..0] == [] && bs[..3] == bs;
  }

  /** `execute` on code that splits without error processes the blocks in order. */
  lemma RunSplits(s: Session, code: string, fuel: nat, bs: seq<Block>)
    requires SplitBlocks(CleanLines(code)) == Ok(bs)
    ensures NonEmptyGroups(bs) && Run(s, code, fuel) == ProcessAll(s, bs, fuel)
  {
    SplitBlocksShape(CleanLines(code));
  }

  /** `execute` runs the three blocks `_parse_blocks` finds. */
  lemma RunBlocks(v: Vocab, fuel: nat)
    requires WordsFit(v) && BracesFit(v)
    ensures NonEmptyGroups([Group(Group1(v)), Group(Group2(v)), Single(Call(v))])
    ensures Run(Fresh, ProgramText(v), fuel)
            == Then(Then(Then(Outcome(None, Fresh), Group(Group1(v)), fuel), Group(Group2(v)), fuel), Single(Call(v)), fuel)
  {
    ParseProgram(v);
    var b1, b2, b3 := Group(Group1(v)), Group(Group2(v)), Single(Call(v));
    RunSplits(Fresh, ProgramText(v), fuel, [b1, b2, b3]);
    ProcessThree(Fresh, b1, b2, b3, fuel);
  }

  /** Once the blocks are defined, what remains of the run is the call. */
  lemma RunIsCall(v: Vocab, fuel: nat)
    requires Fits(v)
    ensures Run(Fresh, ProgramText(v), fuel) == Then(Outcome(None, AfterBlocks(v)), Single(Call(v)), fuel)
  {
    RunBlocks(v, fuel);
    Group1Shape(v);
    Group2Shape(v);
    DefineBlock1(v);
    DefineBlock2(v);
  }

  /**
   * `Router().execute(test_code)`: the two blocks are defined, and the call
   * prints `hello world` exactly once when the recursion limit allows its
   * chain of three routes; nothing else is printed and no value is set.
   * With a lower limit the call raises `RecursionError` after the blocks
   * are defined.
   */
  lemma ProgramRun(v: Vocab, fuel: nat)
    requires Fits(v)
    ensures Run(Fresh, ProgramText(v), fuel)
            == if fuel >= 3 then Outcome(None, AfterBlocks(v).(output := [v.hello]))
               else Outcome(Some(MaxRecursionDepth), AfterBlocks(v))
  {
    var s := AfterBlocks(v);
    RunIsCall(v, fuel);
    AfterBlocksDefined(v);
    CallChain(v, s, fuel);
    assert s.output + [v.hello] == [v.hello];
  }

  // ---------------------------------------------------------------------------
  // The words of arrow.py fit
  // ---------------------------------------------------------------------------

  /** A word of letters and digits. */
  predicate Plain(w: string) {
    |w| > 0 && forall i | 0 <= i < |w| :: 'a' <= w[i] <= 'z' || 'A' <= w[i] <= 'Z' || '0' <= w[i] <= '9'
  }

  lemma PlainWord(w: string)
    requires Plain(w)
    ensures Word(w) && w[0] != '#' && w[0] != '}' && w[0] != '@' && Last(w) != '{' && '@' !in w
  {
  }

  lemma TestNamesPlain()
    ensures var v := TestWords();
      Plain(v.func) && Plain(v.get) && Plain(v.secret) && Plain(v.yes)
  {
  }

  lemma TestRoutesPlain()
    ensures var v := TestWords();
      Plain(v.relay) && Plain(v.printer) && Plain(v.arg0) && Plain(v.arg1)
  {
  }

  lemma TestWordsPlain()
    ensures var v := TestWords();
      Plain(v.func) && Plain(v.get) && Plain(v.secret) && Plain(v.yes) && Plain(v.relay)
      && Plain(v.printer) && Plain(v.arg0) && Plain(v.arg1)
  {
    TestNamesPlain();
    TestRoutesPlain();
  }

  lemma TestBracesAreWords()
    ensures var v := TestWords();
      Word(v.opener) && Word(v.closer) && Word(v.atSecret) && AllSpace(v.indent) && '\n' !in v.indent
  {
  }

  lemma TestTextsAreWords()
    ensures var v := TestWords();
      Word(v.quoted) && Word(v.hello)
  {
  }

  lemma TestWordsSymbols()
    ensures var v := TestWords();
      && Word(v.opener) && Word(v.closer) && Word(v.quoted) && Word(v.hello) && Word(v.atSecret)
      && AllSpace(v.indent) && '\n' !in v.indent
  {
    TestBracesAreWords();
    TestTextsAreWords();
  }

  lemma TestWordsAreWords()
    ensures WordsFit(TestWords())
  {
    var v := TestWords();
    TestWordsPlain();
    TestWordsSymbols();
    PlainWord(v.func);
    PlainWord(v.get);
    PlainWord(v.secret);
    PlainWord(v.yes);
    PlainWord(v.relay);
    PlainWord(v.printer);
    PlainWord(v.arg0);
    PlainWord(v.arg1);
  }

  lemma TestWordsBraces()
    ensures WordsFit(TestWords()) && BracesFit(TestWords())
  {
    var v := TestWords();
    TestWordsAreWords();
    TestWordsPlain();
    PlainWord(v.secret);
    PlainWord(v.yes);
    PlainWord(v.relay);
    PlainWord(v.get);
    PlainWord(v.arg0);
  }

  lemma TestWordsValues()
    ensures ValuesFit(TestWords())
  {
    var v := TestWords();
    StartsWithChar(v.quoted, '"');
    EndsWithChar(v.quoted, '"');
    StartsWithChar(v.yes, '"');
    assert !IsDigit(v.quoted[0]) && !IsDigit(v.yes[0]);
    assert v.quoted[1..|v.quoted| - 1] == v.hello;
  }

  lemma TestWordsKeys()
    ensures KeysFit(TestWords())
  {
    var v := TestWords();
    assert RouteKey(v.func, v.yes)[0] == 'f' && RouteKey(v.get, v.yes)[0] == 'g';
    assert |RouteKey(v.get, v.yes)| != |RouteKey(v.get, v.relay)|;
  }

  lemma TestWordsPlaceholders()
    ensures WordsFit(TestWords()) && PlaceholdersFit(TestWords())
  {
    var v := TestWords();
    TestWordsAreWords();
    TestWordsPlain();
    PlainWord(v.arg0);
    PlainWord(v.arg1);
    ArgNames();
    assert v.arg1[1..] == "rg1";
  }

  lemma TestWordsFit()
    ensures Fits(TestWords())
  {
    TestWordsBraces();
    TestWordsValues();
    TestWordsKeys();
    TestWordsPlaceholders();
  }

  // ---------------------------------------------------------------------------
  // The words of arrow.py spell test_code
  // ---------------------------------------------------------------------------

  /** The lines of the first block of `test_code`. */
  function TestBlock1(): seq<string> {
    ["funcwithsecret > {",
     "    secret > \"hello world\"",
     "    true > arg0 > arg1 > @secret",
     "}"]
  }

  /** The lines of the second block of `test_code`. */
  function TestBlock2(): seq<string> {
    ["getsecret > {",
     "    true > funcwithsecret > true > getsecret > setpublicsecret",
     "    setpublicsecret > systemPrint > arg0",
     "}"]
  }

  /** `test_code` split at its newlines: a blank line, the two blocks with a blank line between them, the call, a blank line. */
  function TestCodeLines(): seq<string> {
    [""] + TestBlock1() + [""] + TestBlock2() + ["getsecret > true", ""]
  }

  /** A statement is its first word, a chevron, and the statement of the rest. */
  lemma StmtCons(w: string, ws: seq<string>)
    requires |ws| > 0
    ensures Stmt([w] + ws) == w + " > " + Stmt(ws)
  {
    assert ([w] + ws)[1..] == ws;
  }

  lemma Stmt4(a: string, b: string, c: string, d: string)
    ensures Stmt([a, b, c, d]) == a + " > " + b + " > " + c + " > " + d
  {
    Stmt3(b, c, d);
    assert [a] + [b, c, d] == [a, b, c, d];
    StmtCons(a, [b, c, d]);
  }

  lemma Stmt5(a: string, b: string, c: string, d: string, e: string)
    ensures Stmt([a, b, c, d, e]) == a + " > " + b + " > " + c + " > " + d + " > " + e
  {
    Stmt4(b, c, d, e);
    assert [a] + [b, c, d, e] == [a, b, c, d, e];
    StmtCons(a, [b, c, d, e]);
  }

  lemma Line104(v: Vocab)
    requires v == TestWords()
    ensures LineText(Statement("", [v.func, v.opener])) == "funcwithsecret > {"
  {
    Stmt2(v.func, v.opener);
  }

  lemma Line105(v: Vocab)
    requires v == TestWords()
    ensures LineText(Statement(v.indent, [v.secret, v.quoted])) == "    secret > \"hello world\""
  {
    Stmt2(v.secret, v.quoted);
    Spelled105();
  }

  lemma Spelled105()
    ensures "    " + (("secret" + " > ") + "\"hello world\"") == "    secret > \"hello world\""
  {
  }

  lemma Line106(v: Vocab)
    requires v == TestWords()
    ensures
      LineText(Statement(v.indent, [v.yes, v.arg0, v.arg1, v.atSecret])) == "    true > arg0 > arg1 > @secret"
  {
    Stmt4(v.yes, v.arg0, v.arg1, v.atSecret);
    Spelled106();
  }

  lemma Spelled106()
    ensures "    " + ("true" + " > " + "arg0" + " > " + "arg1" + " > " + "@secret") == "    true > arg0 > arg1 > @secret"
  {
  }

  lemma Line107(v: Vocab)
    requires v == TestWords()
    ensures LineText(Statement("", [v.closer])) == "}"
  {
  }

  lemma Line109(v: Vocab)
    requires v == TestWords()
    ensures LineText(Statement("", [v.get, v.opener])) == "getsecret > {"
  {
    Stmt2(v.get, v.opener);
  }

  lemma Line110(v: Vocab)
    requires v == TestWords()
    ensures
      LineText(Statement(v.indent, [v.yes, v.func, v.yes, v.get, v.relay]))
      == "    true > funcwithsecret > true > getsecret > setpublicsecret"
  {
    Stmt5(v.yes, v.func, v.yes, v.get, v.relay);
    Regroup(v.indent, v.yes, v.func, v.yes, v.get, v.relay);
    Spelled110();
  }

  /** A five-word line cut after its second chevron. */
  lemma Regroup(i: string, a: string, b: string, c: string, d: string, e: string)
    ensures i + (a + " > " + b + " > " + c + " > " + d + " > " + e)
            == (i + a + " > " + b + " > ") + (c + " > " + d + " > " + e)
  {
  }

  lemma Spelled110()
    ensures ("    " + "true" + " > " + "funcwithsecret" + " > ") + ("true" + " > " + "getsecret" + " > " + "setpublicsecret")
            == "    true > funcwithsecret > true > getsecret > setpublicsecret"
  {
    Spelled110Head();
    Spelled110Tail();
    Spelled110Join();
  }

  lemma Spelled110Join()
    ensures "    true > funcwithsecret > " + "true > getsecret > setpublicsecret"
            == "    true > funcwithsecret > true > getsecret > setpublicsecret"
  {
  }

  lemma Spelled110Head()
    ensures "    " + "true" + " > " + "funcwithsecret" + " > " == "    true > funcwithsecret > "
  {
  }

  lemma Spelled110Tail()
    ensures "true" + " > " + "getsecret" + " > " + "setpublicsecret" == "true > getsecret > setpublicsecret"
  {
  }

  lemma Line111(v: Vocab)
    requires v == TestWords()
    ensures
      LineText(Statement(v.indent, [v.relay, v.printer, v.arg0])) == "    setpublicsecret > systemPrint > arg0"
  {
    Stmt3(v.relay, v.printer, v.arg0);
    Spelled111();
  }

  lemma Spelled111()
    ensures "    " + ("setpublicsecret" + " > " + "systemPrint" + " > " + "arg0") == "    setpublicsecret > systemPrint > arg0"
  {
    Spelled111Words();
    Spelled111Indent();
  }

  lemma Spelled111Words()
    ensures "setpublicsecret" + " > " + "systemPrint" + " > " + "arg0" == "setpublicsecret > systemPrint > arg0"
  {
  }

  lemma Spelled111Indent()
    ensures "    " + "setpublicsecret > systemPrint > arg0" == "    setpublicsecret > systemPrint > arg0"
  {
  }

  lemma Line113(v: Vocab)
    requires v == TestWords()
    ensures LineText(Statement("", [v.get, v.yes])) == "getsecret > true"
  {
    Stmt2(v.get, v.yes);
  }

  lemma {:induction false} TextsAppend(a: seq<SourceLine>, b: seq<SourceLine>)
    ensures Texts(a + b) == Texts(a) + Texts(b)
  {
    if a == [] {
      assert a + b == b;
    } else {
      assert (a + b)[1..] == a[1..] + b;
      TextsAppend(a[1..], b);
      assert Texts(a + b) == [LineText(a[0])] + Texts(a[1..] + b);
    }
  }

  lemma Block1Text(v: Vocab)
    requires v == TestWords()
    ensures Texts(Block1(v)) == TestBlock1()
  {
    Line104(v);
    Line105(v);
    Line106(v);
    Line107(v);
  }

  lemma Block2Text(v: Vocab)
    requires v == TestWords()
    ensures Texts(Block2(v)) == TestBlock2()
  {
    Line109(v);
    Line110(v);
    Line111(v);
    Line107(v);
  }

  /** The program the scenario runs, written with `TestWords()`, is `test_code` line by line. */
  lemma TestCodeText(v: Vocab)
    requires v == TestWords()
    ensures Texts(Program(v)) == TestCodeLines()
  {
    var blank: seq<SourceLine> := [Blank];
    var call := [Statement("", [v.get, v.yes]), Blank];
    Block1Text(v);
    Block2Text(v);
    Line113(v);
    assert Texts(blank) == [""];
    assert Texts(call) == ["getsecret > true", ""];
    TextsAppend(blank, Block1(v));
    TextsAppend(blank + Block1(v), blank);
    TextsAppend(blank + Block1(v) + blank, Block2(v));
    TextsAppend(blank + Block1(v) + blank + Block2(v), call);
  }

  /** The test program run on a `Router` object raises nothing and prints `hello world` once. */
  method RunTestProgram() returns (raised: Option<Raised>, output: seq<string>)
    ensures raised == None && output == ["hello world"]
  {
    var v := TestWords();
    TestWordsFit();
    var router := new Router();
    raised := router.Execute(ProgramText(v), 3);
    ProgramRun(v, 3);
    output := router.output;
  }
}
