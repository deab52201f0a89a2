/**
 * The block splitter of arrow.py (`Router._parse_blocks`), as specification
 * functions and the facts proved about them.
 *
 * Source text is cut into lines, each line is stripped, blank lines and `#`
 * comments are dropped.  The remaining lines are grouped with a brace stack:
 * a line ending in `{` is pushed, a line starting with `}` pops, and when the
 * stack becomes empty everything collected since the last emitted group is
 * emitted as one group.  Lines still collected at the end are emitted one by
 * one.  A `}` line met with an empty stack makes Python's `list.pop` raise
 * `IndexError`.
 */
module Blocks {
  import opened Text

  /** An element of the splitter's output: a list of lines, or a bare line. */
  datatype Block = Group(lines: seq<string>) | Single(line: string)

  /** The outcome of an operation that can raise `IndexError`. */
  datatype Result<T> = Ok(value: T) | IndexError

  // ---------------------------------------------------------------------------
  // The line filter (a list comprehension in the source)
  // ---------------------------------------------------------------------------

  /** A stripped line survives the filter: it is not blank and not a comment. */
  predicate Keep(line: string) {
    line != [] && !StartsWith(line, "#")
  }

  /** `[l.strip() for l in raw if l.strip() and not l.strip().startswith("#")]` */
  function Kept(raw: seq<string>): (r: seq<string>)
    ensures |r| <= |raw|
  {
    if raw == [] then []
    else (if Keep(Strip(raw[0])) then [Strip(raw[0])] else []) + Kept(raw[1..])
  }

  /** The lines `_parse_blocks` works on. */
  function CleanLines(code: string): seq<string> {
    Kept(Split(code, '\n'))
  }

  /** The filter keeps order: filtering a concatenation filters each part. */
  lemma {:induction false} KeptAppend(a: seq<string>, b: seq<string>)
    ensures Kept(a + b) == Kept(a) + Kept(b)
  {
    if a != [] {
      assert (a + b)[0] == a[0];
      assert (a + b)[1..] == a[1..] + b;
      KeptAppend(a[1..], b);
    } else {
      assert a + b == b;
    }
  }

  /** A line is in the filtered list exactly when it is the stripped form of a kept raw line. */
  lemma {:induction false} KeptMembers(raw: seq<string>, x: string)
    ensures x in Kept(raw) <==> exists i | 0 <= i < |raw| :: Strip(raw[i]) == x && Keep(x)
  {
    if raw != [] {
      KeptMembers(raw[1..], x);
      if x in Kept(raw[1..]) {
        var i :| 0 <= i < |raw[1..]| && Strip(raw[1..][i]) == x && Keep(x);
        assert raw[i + 1] == raw[1..][i];
      }
      if exists i | 0 <= i < |raw| :: Strip(raw[i]) == x && Keep(x) {
        var i :| 0 <= i < |raw| && Strip(raw[i]) == x && Keep(x);
        if i > 0 {
          assert raw[1..][i - 1] == raw[i];
        }
      }
    }
  }

  // ---------------------------------------------------------------------------
  // Brace depth
  // ---------------------------------------------------------------------------

  /** A line that pushes on the brace stack. */
  predicate IsOpener(line: string) {
    EndsWith(line, "{")
  }

  /** A line that pops the brace stack (the opener test is made first). */
  predicate IsCloser(line: string) {
    !IsOpener(line) && StartsWith(line, "}")
  }

  function Delta(line: string): int {
    if IsOpener(line) then 1 else if IsCloser(line) then -1 else 0
  }

  /** Openers minus closers in `lines`. */
  function Depth(lines: seq<string>): int {
    if lines == [] then 0 else Depth(lines[..|lines| - 1]) + Delta(lines[|lines| - 1])
  }

  /** Every closer in `lines` leaves at least one brace open. */
  predicate StaysOpen(lines: seq<string>) {
    forall k | 0 < k <= |lines| :: LeavesOpen(lines, k)
  }

  /** If the `k`-th line is a closer, some brace is still open after it. */
  predicate LeavesOpen(lines: seq<string>, k: int)
    requires 0 < k <= |lines|
  {
    IsCloser(lines[k - 1]) ==> Depth(lines[..k]) > 0
  }

  /**
   * What an emitted group looks like: it ends with a closer that brings the
   * depth, counted from the start of the group, back to zero, and no earlier
   * closer did.
   */
  predicate WellGroup(g: seq<string>) {
    |g| > 0 && IsCloser(g[|g| - 1]) && Depth(g) == 0 && StaysOpen(g[..|g| - 1])
  }

  /** Some closer is met while no brace is open: the pop that raises `IndexError`. */
  predicate StrayCloser(lines: seq<string>) {
    exists k | 0 <= k < |lines| :: StrayAt(lines, k)
  }

  /** The line at `k` is a closer met with no brace open. */
  predicate StrayAt(lines: seq<string>, k: int)
    requires 0 <= k < |lines|
  {
    IsCloser(lines[k]) && Depth(lines[..k]) == 0
  }

  // ---------------------------------------------------------------------------
  // The splitter loop, one line at a time
  // ---------------------------------------------------------------------------

  /** The splitter's loop variables `blocks`, `stack` and `current`. */
  datatype Splitter = Splitter(blocks: seq<Block>, stack: seq<string>, current: seq<string>)

  /** One iteration of the loop over the lines. */
  function Step(sp: Splitter, line: string): Result<Splitter> {
    if EndsWith(line, "{") then
      Ok(Splitter(sp.blocks, sp.stack + [line], sp.current + [line]))
    else if StartsWith(line, "}") then
      if sp.stack == [] then IndexError
      else
        var stack := sp.stack[..|sp.stack| - 1];
        var current := sp.current + [line];
        if stack == [] then Ok(Splitter(sp.blocks + [Group(current)], [], []))
        else Ok(Splitter(sp.blocks, stack, current))
    else
      Ok(Splitter(sp.blocks, sp.stack, sp.current + [line]))
  }

  /** The loop variables after the given lines (or the error raised on the way). */
  function Scan(lines: seq<string>): Result<Splitter> {
    if lines == [] then Ok(Splitter([], [], []))
    else
      match Scan(lines[..|lines| - 1])
      case IndexError => IndexError
      case Ok(sp) => Step(sp, lines[|lines| - 1])
  }

  /** The leftover lines, each as its own block (`blocks += current`). */
  function Singles(lines: seq<string>): (r: seq<Block>)
    ensures |r| == |lines|
    ensures forall i | 0 <= i < |r| :: r[i] == Single(lines[i])
  {
    seq(|lines|, i requires 0 <= i < |lines| => Single(lines[i]))
  }

  /** The result of `_parse_blocks` on the filtered lines. */
  function SplitBlocks(lines: seq<string>): Result<seq<Block>> {
    match Scan(lines)
    case IndexError => IndexError
    case Ok(sp) => Ok(sp.blocks + Singles(sp.current))
  }

  function LinesOf(b: Block): seq<string> {
    match b
    case Group(lines) => lines
    case Single(line) => [line]
  }

  /** All lines of a block list, in order. */
  function Flatten(bs: seq<Block>): seq<string> {
    if bs == [] then [] else Flatten(bs[..|bs| - 1]) + LinesOf(bs[|bs| - 1])
  }

  /** Every group is non-empty (so `block[0]` is defined). */
  predicate NonEmptyGroups(bs: seq<Block>) {
    forall i | 0 <= i < |bs| :: bs[i].Group? ==> |bs[i].lines| > 0
  }

  // ---------------------------------------------------------------------------
  // Facts about the splitter
  // ---------------------------------------------------------------------------

  lemma {:induction false} DepthSnoc(lines: seq<string>, line: string)
    ensures Depth(lines + [line]) == Depth(lines) + Delta(line)
  {
    assert (lines + [line])[..|lines|] == lines;
  }

  lemma {:induction false} StaysOpenSnoc(lines: seq<string>, line: string)
    requires StaysOpen(lines)
    requires IsCloser(line) ==> Depth(lines + [line]) > 0
    ensures StaysOpen(lines + [line])
  {
    var ext := lines + [line];
    forall k | 0 < k <= |ext|
      ensures LeavesOpen(ext, k)
    {
      if k <= |lines| {
        assert LeavesOpen(lines, k);
        assert ext[..k] == lines[..k] && ext[k - 1] == lines[k - 1];
      } else {
        assert ext[..k] == ext;
      }
    }
  }

  /** The splitter's loop invariant, for loop variables `sp` after `lines`. */
  predicate SplitterInv(sp: Splitter, lines: seq<string>) {
    && Flatten(sp.blocks) + sp.current == lines
    && |sp.stack| == Depth(sp.current) == Depth(lines)
    && StaysOpen(sp.current)
    && (forall i | 0 <= i < |sp.blocks| :: sp.blocks[i].Group? && WellGroup(sp.blocks[i].lines))
  }

  /** Closing the last open brace completes a well-formed group. */
  lemma {:induction false} GroupCloses(cur: seq<string>, line: string)
    requires StaysOpen(cur) && Depth(cur) == 1 && IsCloser(line)
    ensures WellGroup(cur + [line])
  {
    DepthSnoc(cur, line);
    assert (cur + [line])[..|cur|] == cur;
  }

  /** A `}` line that empties the stack emits the collected group. */
  lemma {:induction false} StepEmits(sp: Splitter, lines: seq<string>, line: string)
    requires SplitterInv(sp, lines) && IsCloser(line) && |sp.stack| == 1
    ensures Step(sp, line) == Ok(Splitter(sp.blocks + [Group(sp.current + [line])], [], []))
    ensures SplitterInv(Splitter(sp.blocks + [Group(sp.current + [line])], [], []), lines + [line])
  {
    var none: seq<string> := [];
    assert sp.stack[..|sp.stack| - 1] == none;
    EmittedInv(sp, lines, line);
  }

  /** Appending a well-formed group keeps every block a well-formed group. */
  lemma WellGroupsSnoc(bs: seq<Block>, b: Block)
    requires forall i | 0 <= i < |bs| :: bs[i].Group? && WellGroup(bs[i].lines)
    requires b.Group? && WellGroup(b.lines)
    ensures forall i | 0 <= i < |bs + [b]| :: (bs + [b])[i].Group? && WellGroup((bs + [b])[i].lines)
  {
    forall i | 0 <= i < |bs + [b]| ensures (bs + [b])[i].Group? && WellGroup((bs + [b])[i].lines) {
      if i < |bs| {
        assert (bs + [b])[i] == bs[i];
      }
    }
  }

  /** The loop invariant after a group is emitted. */
  lemma {:induction false} EmittedInv(sp: Splitter, lines: seq<string>, line: string)
    requires SplitterInv(sp, lines) && IsCloser(line) && |sp.stack| == 1
    ensures SplitterInv(Splitter(sp.blocks + [Group(sp.current + [line])], [], []), lines + [line])
  {
    var cur := sp.current + [line];
    var bs := sp.blocks + [Group(cur)];
    var none: seq<string> := [];
    FlattenSnoc(sp.blocks, Group(cur));
    assert Flatten(bs) + none == (Flatten(sp.blocks) + sp.current) + [line];
    DepthSnoc(lines, line);
    GroupCloses(sp.current, line);
    WellGroupsSnoc(sp.blocks, Group(cur));
    assert StaysOpen(none);
  }

  /** A step that does not emit a group extends `current` by the line. */
  lemma {:induction false} StepExtends(sp: Splitter, lines: seq<string>, line: string)
    requires SplitterInv(sp, lines) && Step(sp, line).Ok?
    requires !(IsCloser(line) && |sp.stack| == 1)
    ensures Step(sp, line).value.blocks == sp.blocks
    ensures Step(sp, line).value.current == sp.current + [line]
    ensures |Step(sp, line).value.stack| == |sp.stack| + Delta(line)
  {
  }

  /** The loop invariant after a step that only extends `current`. */
  lemma ExtendedInv(sp: Splitter, next: Splitter, lines: seq<string>, line: string)
    requires SplitterInv(sp, lines) && !(IsCloser(line) && |sp.stack| == 1)
    requires IsCloser(line) ==> sp.stack != []
    requires next.blocks == sp.blocks && next.current == sp.current + [line]
    requires |next.stack| == |sp.stack| + Delta(line)
    ensures SplitterInv(next, lines + [line])
  {
    DepthSnoc(sp.current, line);
    DepthSnoc(lines, line);
    StaysOpenSnoc(sp.current, line);
    assert Flatten(next.blocks) + next.current == (Flatten(sp.blocks) + sp.current) + [line];
  }

  /** Every successful step keeps the loop invariant. */
  lemma {:induction false} StepKeeps(sp: Splitter, lines: seq<string>, line: string)
    requires SplitterInv(sp, lines) && Step(sp, line).Ok?
    ensures SplitterInv(Step(sp, line).value, lines + [line])
  {
    if IsCloser(line) && |sp.stack| == 1 {
      StepEmits(sp, lines, line);
    } else {
      StepExtends(sp, lines, line);
      ExtendedInv(sp, Step(sp, line).value, lines, line);
    }
  }

  /** The loop invariant of the splitter holds after every prefix that does not raise. */
  lemma {:induction false} ScanShape(lines: seq<string>)
    requires Scan(lines).Ok?
    ensures SplitterInv(Scan(lines).value, lines)
  {
    if lines != [] {
      var init, line := lines[..|lines| - 1], lines[|lines| - 1];
      assert lines == init + [line];
      ScanShape(init);
      StepKeeps(Scan(init).value, init, line);
    }
  }

  /** One more line costs one more `Step`. */
  lemma ScanNext(lines: seq<string>, i: nat)
    requires i < |lines|
    ensures Scan(lines[..i + 1]) == match Scan(lines[..i])
      case IndexError => IndexError
      case Ok(sp) => Step(sp, lines[i])
  {
    assert lines[..i + 1][..i] == lines[..i];
  }

  /** Once the splitter has raised, more lines do not help. */
  lemma {:induction false} ScanSticky(lines: seq<string>, more: seq<string>)
    requires Scan(lines).IndexError?
    ensures Scan(lines + more).IndexError?
  {
    if more != [] {
      var m := more[..|more| - 1];
      ScanSticky(lines, m);
      assert (lines + more)[..|lines + more| - 1] == lines + m;
    } else {
      assert lines + more == lines;
    }
  }

  /** A stray closer in `lines + [line]` is one in `lines` or `line` itself. */
  lemma {:induction false} StrayCloserSnoc(lines: seq<string>, line: string)
    ensures StrayCloser(lines + [line]) <==> StrayCloser(lines) || StrayAt(lines + [line], |lines|)
  {
    var ext := lines + [line];
    forall k | 0 <= k < |lines|
      ensures StrayAt(ext, k) == StrayAt(lines, k)
    {
      assert ext[k] == lines[k] && ext[..k] == lines[..k];
    }
  }

  /** The splitter raises `IndexError` exactly when some `}` line finds no open brace. */
  lemma {:induction false} ScanFails(lines: seq<string>)
    ensures Scan(lines).IndexError? <==> StrayCloser(lines)
  {
    if lines != [] {
      var init, line := lines[..|lines| - 1], lines[|lines| - 1];
      assert lines == init + [line];
      ScanFails(init);
      StrayCloserSnoc(init, line);
      if Scan(init).Ok? {
        ScanShape(init);
        assert lines[..|init|] == init;
      }
    }
  }

  lemma {:induction false} FlattenSnoc(bs: seq<Block>, b: Block)
    ensures Flatten(bs + [b]) == Flatten(bs) + LinesOf(b)
  {
    assert (bs + [b])[..|bs|] == bs;
  }

  lemma {:induction false} FlattenSingles(bs: seq<Block>, lines: seq<string>)
    ensures Flatten(bs + Singles(lines)) == Flatten(bs) + lines
  {
    if lines != [] {
      var init := lines[..|lines| - 1];
      FlattenSingles(bs, init);
      assert bs + Singles(lines) == (bs + Singles(init)) + [Single(lines[|lines| - 1])];
      FlattenSnoc(bs + Singles(init), Single(lines[|lines| - 1]));
      assert init + [lines[|lines| - 1]] == lines;
    } else {
      assert bs + Singles(lines) == bs;
    }
  }

  /**
   * No line is lost, duplicated or reordered: when the splitter does not
   * raise, its blocks flattened give back exactly the lines it was given.
   */
  lemma SplitBlocksFlatten(lines: seq<string>)
    requires SplitBlocks(lines).Ok?
    ensures Flatten(SplitBlocks(lines).value) == lines
  {
    ScanShape(lines);
    var sp := Scan(lines).value;
    FlattenSingles(sp.blocks, sp.current);
  }

  /** `_parse_blocks` raises exactly when a `}` line finds the brace stack empty. */
  lemma SplitBlocksFails(lines: seq<string>)
    ensures SplitBlocks(lines).IndexError? <==> StrayCloser(lines)
  {
    ScanFails(lines);
  }

  /**
   * The shape of the output: first the emitted groups, each a well-formed
   * group ending in the `}` line that emptied the stack, then the leftover
   * lines as single blocks.
   */
  lemma SplitBlocksShape(lines: seq<string>)
    requires SplitBlocks(lines).Ok?
    ensures var bs := SplitBlocks(lines).value;
      && (forall i | 0 <= i < |bs| :: bs[i].Group? ==> WellGroup(bs[i].lines))
      && (forall i, j | 0 <= i < j < |bs| :: bs[i].Single? ==> bs[j].Single?)
      && NonEmptyGroups(bs)
  {
    ScanShape(lines);
    var sp := Scan(lines).value;
    var bs := sp.blocks + Singles(sp.current);
    assert SplitBlocks(lines).value == bs;
    forall i | 0 <= i < |bs|
      ensures i < |sp.blocks| ==> bs[i].Group? && WellGroup(bs[i].lines)
      ensures i >= |sp.blocks| ==> bs[i].Single?
    {
      if i < |sp.blocks| {
        assert bs[i] == sp.blocks[i];
      } else {
        assert bs[i] == Singles(sp.current)[i - |sp.blocks|];
      }
    }
  }

  /** A line that neither opens nor closes a brace. */
  predicate Neutral(line: string) {
    !EndsWith(line, "{") && !StartsWith(line, "}")
  }

  /** Neutral lines are only collected into `current`. */
  lemma {:induction false} ScanNeutral(prefix: seq<string>, ns: seq<string>)
    requires Scan(prefix).Ok?
    requires forall i | 0 <= i < |ns| :: Neutral(ns[i])
    ensures var sp := Scan(prefix).value;
      Scan(prefix + ns) == Ok(Splitter(sp.blocks, sp.stack, sp.current + ns))
  {
    if ns == [] {
      assert prefix + ns == prefix && Scan(prefix).value.current + ns == Scan(prefix).value.current;
    } else {
      var sp := Scan(prefix).value;
      var init, last := ns[..|ns| - 1], ns[|ns| - 1];
      ScanNeutral(prefix, init);
      assert Neutral(last);
      assert (prefix + ns)[..|prefix + ns| - 1] == prefix + init;
      assert (prefix + ns)[|prefix + ns| - 1] == last;
      assert Scan(prefix + ns) == Step(Splitter(sp.blocks, sp.stack, sp.current + init), last);
      assert (sp.current + init) + [last] == sp.current + ns;
    }
  }

  /** Neutral lines, then a header: the header is pushed and collected after them. */
  lemma {:induction false} ScanHeader(pre: seq<string>, header: string)
    requires forall i | 0 <= i < |pre| :: Neutral(pre[i])
    requires IsOpener(header)
    ensures Scan(pre + [header]) == Ok(Splitter([], [header], pre + [header]))
  {
    ScanNeutral([], pre);
    assert [] + pre == pre;
    assert (pre + [header])[..|pre|] == pre;
    var none: seq<string> := [];
    assert none + [header] == [header];
  }

  /** The closer of the only open brace emits everything collected as one group. */
  lemma {:induction false} ScanCloses(mid: seq<string>, header: string, closer: string)
    requires Scan(mid) == Ok(Splitter([], [header], mid))
    requires IsCloser(closer)
    ensures SplitBlocks(mid + [closer]) == Ok([Group(mid + [closer])])
  {
    var ls := mid + [closer];
    assert ls[..|ls| - 1] == mid;
    var none: seq<string> := [];
    assert [header][..0] == none;
    var noBlocks: seq<Block> := [];
    assert noBlocks + [Group(ls)] == [Group(ls)];
    assert Step(Splitter(noBlocks, [header], mid), closer) == Ok(Splitter([Group(ls)], [], []));
    assert Scan(ls) == Ok(Splitter([Group(ls)], [], []));
    assert [Group(ls)] + Singles([]) == [Group(ls)];
  }

  /**
   * A quirk of the source: lines before a block are not flushed, so they end
   * up at the front of that block's group (whose first line then is not the
   * header).
   */
  lemma AbsorbedLeadingLines(pre: seq<string>, header: string, body: seq<string>, closer: string)
    requires forall i | 0 <= i < |pre| :: Neutral(pre[i])
    requires forall i | 0 <= i < |body| :: Neutral(body[i])
    requires IsOpener(header) && IsCloser(closer)
    ensures SplitBlocks(pre + [header] + body + [closer]) == Ok([Group(pre + [header] + body + [closer])])
  {
    ScanHeader(pre, header);
    ScanNeutral(pre + [header], body);
    ScanCloses(pre + [header] + body, header, closer);
  }

  /** With nothing open, a header is pushed and starts the collection. */
  lemma ScanOpens(prefix: seq<string>, bs: seq<Block>, header: string)
    requires Scan(prefix) == Ok(Splitter(bs, [], []))
    requires IsOpener(header)
    ensures Scan(prefix + [header]) == Ok(Splitter(bs, [header], [header]))
  {
    var p := prefix + [header];
    assert p[..|p| - 1] == prefix;
    var none: seq<string> := [];
    assert none + [header] == [header];
  }

  /** The closer of the only open brace emits the collection as one group. */
  lemma ScanCloseOne(prefix: seq<string>, bs: seq<Block>, header: string, cur: seq<string>, closer: string)
    requires Scan(prefix) == Ok(Splitter(bs, [header], cur))
    requires IsCloser(closer)
    ensures Scan(prefix + [closer]) == Ok(Splitter(bs + [Group(cur + [closer])], [], []))
  {
    var p := prefix + [closer];
    assert p[..|p| - 1] == prefix;
    var none: seq<string> := [];
    assert [header][..0] == none;
  }

  /**
   * With nothing open and nothing collected, a header, neutral lines and a
   * closer are emitted as one group, and the splitter is back where it was.
   */
  lemma ScanGroup(prefix: seq<string>, bs: seq<Block>, header: string, body: seq<string>, closer: string)
    requires Scan(prefix) == Ok(Splitter(bs, [], []))
    requires forall i | 0 <= i < |body| :: Neutral(body[i])
    requires IsOpener(header) && IsCloser(closer)
    ensures Scan(prefix + ([header] + body + [closer]))
            == Ok(Splitter(bs + [Group([header] + body + [closer])], [], []))
  {
    var p1 := prefix + [header];
    var p2 := p1 + body;
    var g := [header] + body + [closer];
    assert Scan(p2) == Ok(Splitter(bs, [header], [header] + body)) by {
      ScanOpens(prefix, bs, header);
      ScanNeutral(p1, body);
    }
    assert p2 + [closer] == prefix + g;
    ScanCloseOne(p2, bs, header, [header] + body, closer);
  }

  /** A quirk of the source: a closing line with nothing open raises. */
  lemma UnmatchedCloserRaises()
    ensures SplitBlocks(["a > b", "}", "c > {", "}"]).IndexError?
  {
    var ls := ["a > b", "}", "c > {", "}"];
    EndsWithChar("}", '{');
    StartsWithChar("}", '}');
    EndsWithChar("a > b", '{');
    StartsWithChar("a > b", '}');
    assert ls[..1] == ["a > b"];
    assert Depth(ls[..1]) == 0;
    assert StrayAt(ls, 1);
    ScanFails(ls);
  }
}
