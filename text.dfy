/**
 * The handful of Python string built-ins the two routers rely on, written out
 * over `string` (= `seq<char>`): `str.split` on one character, `str.strip`,
 * `startswith`/`endswith`, `isdigit`, `int(...)`/`str(...)` on naturals,
 * `str.replace` and `str.join`.  Each comes with the facts the router proofs
 * need and with small "computation" lemmas that let the verifier evaluate
 * them on concrete program text.
 */
module Text {

  // ---------------------------------------------------------------------------
  // Whitespace and strip
  // ---------------------------------------------------------------------------

  /** The ASCII/Latin-1 characters Python's `str.isspace` accepts. */
  predicate IsSpace(c: char) {
    c == ' ' || c == '\t' || c == '\n' || c == '\r' || c == '\U{0B}' || c == '\U{0C}'
    || ('\U{1C}' <= c <= '\U{1F}') || c == '\U{85}' || c == '\U{A0}'
  }

  predicate AllSpace(s: string) {
    forall i | 0 <= i < |s| :: IsSpace(s[i])
  }

  /** `s` has no whitespace at either end. */
  predicate Trimmed(s: string) {
    s == [] || (!IsSpace(s[0]) && !IsSpace(s[|s| - 1]))
  }

  /** Drops leading whitespace (see `TrimLeftSpec`). */
  function TrimLeft(s: string): (r: string)
    ensures |r| <= |s|
  {
    if |s| > 0 && IsSpace(s[0]) then TrimLeft(s[1..]) else s
  }

  /** Drops trailing whitespace (see `TrimRightSpec`). */
  function TrimRight(s: string): (r: string)
    ensures |r| <= |s|
  {
    if |s| > 0 && IsSpace(s[|s| - 1]) then TrimRight(s[..|s| - 1]) else s
  }

  /** Python `str.strip()`. */
  function Strip(s: string): (r: string)
    ensures |r| <= |s|
  {
    TrimRight(TrimLeft(s))
  }

  /** `TrimLeft` keeps the longest suffix that does not start with whitespace, and drops only whitespace. */
  lemma {:induction false} TrimLeftSpec(s: string)
    ensures var r := TrimLeft(s);
      && r == s[|s| - |r|..]
      && AllSpace(s[..|s| - |r|])
      && (r == [] || !IsSpace(r[0]))
  {
    if |s| > 0 && IsSpace(s[0]) {
      TrimLeftSpec(s[1..]);
      var r := TrimLeft(s);
      assert s[1..][|s| - 1 - |r|..] == s[|s| - |r|..];
      assert s[..|s| - |r|] == [s[0]] + s[1..][..|s| - 1 - |r|];
    }
  }

  /** `TrimRight` keeps the longest prefix that does not end in whitespace, and drops only whitespace. */
  lemma {:induction false} TrimRightSpec(s: string)
    ensures var r := TrimRight(s);
      && r == s[..|r|]
      && AllSpace(s[|r|..])
      && (r == [] || !IsSpace(r[|r| - 1]))
  {
    if |s| > 0 && IsSpace(s[|s| - 1]) {
      var init := s[..|s| - 1];
      TrimRightSpec(init);
      var r := TrimRight(s);
      assert init[..|r|] == s[..|r|];
      assert s[|r|..] == init[|r|..] + [s[|s| - 1]];
    }
  }

  /** What `str.strip()` returns has no whitespace at either end. */
  lemma StripTrimmed(s: string)
    ensures Trimmed(Strip(s))
  {
    var l := TrimLeft(s);
    TrimLeftSpec(s);
    TrimRightSpec(l);
    var r := TrimRight(l);
    if r != [] {
      assert r[0] == l[0];
    }
  }

  lemma {:induction false} TrimLeftPadded(pre: string, core: string)
    requires AllSpace(pre)
    requires core == [] || !IsSpace(core[0])
    ensures TrimLeft(pre + core) == core
  {
    if pre != [] {
      assert (pre + core)[1..] == pre[1..] + core;
      TrimLeftPadded(pre[1..], core);
    } else {
      assert pre + core == core;
    }
  }

  lemma {:induction false} TrimRightPadded(core: string, post: string)
    requires AllSpace(post)
    requires core == [] || !IsSpace(core[|core| - 1])
    ensures TrimRight(core + post) == core
  {
    if post != [] {
      assert (core + post)[..|core + post| - 1] == core + post[..|post| - 1];
      TrimRightPadded(core, post[..|post| - 1]);
    } else {
      assert core + post == core;
    }
  }

  /**
   * Strip removes exactly the whitespace padding: whatever the padding, a
   * trimmed core comes back unchanged.  Together with `Strip`'s own contract
   * this characterises `str.strip()` completely.
   */
  lemma StripPadded(pre: string, core: string, post: string)
    requires AllSpace(pre) && AllSpace(post) && Trimmed(core)
    ensures Strip(pre + core + post) == core
  {
    if core == [] {
      assert pre + core + post == pre + post;
      TrimLeftPadded(pre + post, []);
      assert pre + post + [] == pre + post;
      assert AllSpace(pre + post);
      TrimRightPadded([], []);
    } else {
      assert pre + core + post == pre + (core + post);
      TrimLeftPadded(pre, core + post);
      TrimRightPadded(core, post);
    }
  }

  /** `str.strip()` is idempotent. */
  lemma StripIdempotent(s: string)
    ensures Strip(Strip(s)) == Strip(s)
  {
    var r := Strip(s);
    StripTrimmed(s);
    assert r == [] + r + [];
    StripPadded([], r, []);
  }

  // ---------------------------------------------------------------------------
  // Prefix and suffix tests
  // ---------------------------------------------------------------------------

  /** Python `s.startswith(p)`. */
  predicate StartsWith(s: string, p: string) {
    |p| <= |s| && s[..|p|] == p
  }

  /** Python `s.endswith(p)`. */
  predicate EndsWith(s: string, p: string) {
    |p| <= |s| && s[|s| - |p|..] == p
  }

  /** A one-character suffix test looks at the last character. */
  lemma EndsWithChar(s: string, c: char)
    ensures EndsWith(s, [c]) <==> |s| > 0 && s[|s| - 1] == c
  {
    if |s| > 0 {
      assert s[|s| - 1..] == [s[|s| - 1]];
    }
  }

  /** A one-character prefix test looks at the first character. */
  lemma StartsWithChar(s: string, c: char)
    ensures StartsWith(s, [c]) <==> |s| > 0 && s[0] == c
  {
    if |s| > 0 {
      assert s[..1] == [s[0]];
    }
  }

  // ---------------------------------------------------------------------------
  // split and join
  // ---------------------------------------------------------------------------

  /** Python `s.split(c)` for a one-character separator: never empty, "" gives [""]. */
  function Split(s: string, c: char): (r: seq<string>)
    ensures |r| >= 1
  {
    if |s| == 0 then [""]
    else
      var rest := Split(s[1..], c);
      if s[0] == c then [""] + rest else [[s[0]] + rest[0]] + rest[1..]
  }

  /** Python `sep.join(parts)`. */
  function Join(parts: seq<string>, sep: string): string {
    if |parts| == 0 then ""
    else if |parts| == 1 then parts[0]
    else parts[0] + sep + Join(parts[1..], sep)
  }

  /** Splitting on `c` and joining back with `c` gives the text back. */
  lemma {:induction false} JoinSplit(s: string, c: char)
    ensures Join(Split(s, c), [c]) == s
  {
    if |s| > 0 {
      var rest := Split(s[1..], c);
      JoinSplit(s[1..], c);
      if s[0] == c {
        assert Split(s, c) == [""] + rest;
        assert ([""] + rest)[1..] == rest;
        assert [s[0]] + s[1..] == s;
      } else {
        var r := Split(s, c);
        assert r == [[s[0]] + rest[0]] + rest[1..];
        if |rest| == 1 {
          assert [s[0]] + s[1..] == s;
        } else {
          assert r[1..] == rest[1..];
          assert Join(rest, [c]) == rest[0] + [c] + Join(rest[1..], [c]);
          assert [s[0]] + s[1..] == s;
        }
      }
    }
  }

  /** Appending one more part to a non-empty join. */
  lemma {:induction false} JoinSnoc(parts: seq<string>, x: string, sep: string)
    requires |parts| > 0
    ensures Join(parts + [x], sep) == Join(parts, sep) + sep + x
  {
    if |parts| == 1 {
      assert (parts + [x])[1..] == [x];
    } else {
      assert (parts + [x])[1..] == parts[1..] + [x];
      JoinSnoc(parts[1..], x, sep);
    }
  }

  /** Computation lemma: a piece free of `c`, then `c`, then the rest. */
  lemma {:induction false} SplitAt(a: string, c: char, b: string)
    requires c !in a
    ensures Split(a + [c] + b, c) == [a] + Split(b, c)
  {
    if |a| == 0 {
      assert a + [c] + b == [c] + b;
      assert ([c] + b)[1..] == b;
    } else {
      SplitAt(a[1..], c, b);
      assert (a + [c] + b)[1..] == a[1..] + [c] + b;
      assert [a[0]] + a[1..] == a;
    }
  }

  /** Computation lemma: text free of `c` is one piece. */
  lemma {:induction false} SplitNone(a: string, c: char)
    requires c !in a
    ensures Split(a, c) == [a]
  {
    if |a| > 0 {
      SplitNone(a[1..], c);
      assert [a[0]] + a[1..] == a;
    }
  }

  /** The pieces of a chevron statement: `[p.strip() for p in line.split(">")]`. */
  function Segments(line: string): (r: seq<string>)
    ensures |r| == |Split(line, '>')| && |r| >= 1
  {
    StripAll(Split(line, '>'))
  }

  /** Each piece stripped. */
  function StripAll(ps: seq<string>): (r: seq<string>)
    ensures |r| == |ps|
  {
    if ps == [] then [] else [Strip(ps[0])] + StripAll(ps[1..])
  }

  lemma {:induction false} StripAllIndex(ps: seq<string>, i: nat)
    requires i < |ps|
    ensures StripAll(ps)[i] == Strip(ps[i])
  {
    if i > 0 {
      StripAllIndex(ps[1..], i - 1);
    }
  }

  /** Pieces that strip to the given words strip, all together, to those words. */
  lemma StripAllIs(ps: seq<string>, ws: seq<string>)
    requires |ps| == |ws| && forall i | 0 <= i < |ps| :: Strip(ps[i]) == ws[i]
    ensures StripAll(ps) == ws
  {
    forall i | 0 <= i < |ps| ensures StripAll(ps)[i] == ws[i] {
      StripAllIndex(ps, i);
    }
  }

  /** No piece of a split contains the separator. */
  lemma {:induction false} SplitAvoids(s: string, c: char)
    ensures forall i | 0 <= i < |Split(s, c)| :: c !in Split(s, c)[i]
  {
    if |s| > 0 {
      SplitAvoids(s[1..], c);
    }
  }

  /** The segments of a line are stripped and contain no `>`. */
  lemma SegmentsClean(line: string)
    ensures forall i | 0 <= i < |Segments(line)| :: Trimmed(Segments(line)[i]) && '>' !in Segments(line)[i]
  {
    var ps := Split(line, '>');
    SplitAvoids(line, '>');
    forall i | 0 <= i < |ps| ensures Trimmed(Segments(line)[i]) && '>' !in Segments(line)[i] {
      StripAllIndex(ps, i);
      StripTrimmed(ps[i]);
      StripWithin(ps[i], '>');
    }
  }

  /** Stripping adds no character. */
  lemma StripWithin(s: string, c: char)
    requires c !in s
    ensures c !in Strip(s)
  {
    var l := TrimLeft(s);
    TrimLeftSpec(s);
    TrimRightSpec(l);
    assert forall k | 0 <= k < |l| :: l[k] == s[|s| - |l| + k];
  }

  /** Splitting a join on a separator that no piece contains gives the pieces back. */
  lemma {:induction false} SplitJoin(pieces: seq<string>, c: char)
    requires |pieces| > 0
    requires forall i | 0 <= i < |pieces| :: c !in pieces[i]
    ensures Split(Join(pieces, [c]), c) == pieces
  {
    if |pieces| == 1 {
      SplitNone(pieces[0], c);
    } else {
      SplitJoin(pieces[1..], c);
      SplitAt(pieces[0], c, Join(pieces[1..], [c]));
      assert [pieces[0]] + pieces[1..] == pieces;
    }
  }

  /**
   * The raw pieces of `pre + " > ".join(words) + post` split on `>`: one per
   * word, each the word with some whitespace around it.
   */
  lemma {:induction false} SplitChevrons(pre: string, words: seq<string>, post: string)
    requires AllSpace(pre) && AllSpace(post) && |words| > 0
    requires forall i | 0 <= i < |words| :: Trimmed(words[i]) && '>' !in words[i]
    ensures var ps := Split(pre + Join(words, " > ") + post, '>');
      |ps| == |words| && forall i | 0 <= i < |ps| :: Strip(ps[i]) == words[i]
    decreases |words|
  {
    var w := words[0];
    if |words| == 1 {
      ChevronLast(pre, w, post);
    } else {
      var rest := words[1..];
      var ps := Split(pre + Join(words, " > ") + post, '>');
      var qs := Split(" " + Join(rest, " > ") + post, '>');
      assert words == [w] + rest;
      ChevronStep(pre, w, rest, post);
      assert ps == [pre + w + " "] + qs;
      assert forall i | 0 <= i < |rest| :: Trimmed(rest[i]) && '>' !in rest[i] by {
        forall i | 0 <= i < |rest| ensures rest[i] == words[i + 1] { }
      }
      SplitChevrons(" ", rest, post);
      forall i | 0 <= i < |ps| ensures Strip(ps[i]) == words[i] {
        if i > 0 {
          assert ps[i] == qs[i - 1] && words[i] == rest[i - 1];
        }
      }
    }
  }

  lemma ChevronLast(pre: string, w: string, post: string)
    requires AllSpace(pre) && AllSpace(post) && Trimmed(w) && '>' !in w
    ensures Split(pre + Join([w], " > ") + post, '>') == [pre + w + post]
    ensures Strip(pre + w + post) == w
  {
    assert forall i | 0 <= i < |pre| :: pre[i] != '>';
    assert forall i | 0 <= i < |post| :: post[i] != '>';
    assert '>' !in pre + w + post;
    SplitNone(pre + w + post, '>');
    StripPadded(pre, w, post);
  }

  lemma ChevronStep(pre: string, w: string, rest: seq<string>, post: string)
    requires AllSpace(pre) && Trimmed(w) && '>' !in w && |rest| > 0
    ensures Split(pre + Join([w] + rest, " > ") + post, '>') == [pre + w + " "] + Split(" " + Join(rest, " > ") + post, '>')
    ensures Strip(pre + w + " ") == w
  {
    var head := pre + w + " ";
    var tail := Join(rest, " > ");
    assert ([w] + rest)[1..] == rest;
    assert pre + Join([w] + rest, " > ") + post == head + ['>'] + (" " + tail + post);
    assert forall i | 0 <= i < |pre| :: pre[i] != '>';
    assert '>' !in head;
    SplitAt(head, '>', " " + tail + post);
    StripPadded(pre, w, " ");
  }

  /** A character in neither the parts nor the separator is not in their join. */
  lemma {:induction false} JoinAvoids(parts: seq<string>, sep: string, c: char)
    requires c !in sep && forall i | 0 <= i < |parts| :: c !in parts[i]
    ensures c !in Join(parts, sep)
  {
    if |parts| > 1 {
      JoinAvoids(parts[1..], sep, c);
    }
  }

  /** A join starts where its first part starts and ends where its last part ends. */
  lemma {:induction false} JoinEnds(parts: seq<string>, sep: string)
    requires |parts| > 0 && forall i | 0 <= i < |parts| :: |parts[i]| > 0
    ensures var j := Join(parts, sep);
      |j| > 0 && j[0] == parts[0][0] && j[|j| - 1] == parts[|parts| - 1][|parts[|parts| - 1]| - 1]
  {
    var j := Join(parts, sep);
    if |parts| > 1 {
      var first, rest := parts[0], parts[1..];
      forall i | 0 <= i < |rest| ensures |rest[i]| > 0 {
        assert rest[i] == parts[i + 1];
      }
      JoinEnds(rest, sep);
      var tail := Join(rest, sep);
      assert j == first + (sep + tail);
      assert j[0] == first[0];
      assert j[|j| - 1] == tail[|tail| - 1];
      assert rest[|rest| - 1] == parts[|parts| - 1];
    }
  }

  /** The raw pieces of `" > ".join(words) + post` strip to the words. */
  lemma PaddedPieces(words: seq<string>, post: string)
    requires |words| > 0 && AllSpace(post)
    requires forall i | 0 <= i < |words| :: Trimmed(words[i]) && '>' !in words[i]
    ensures var ps := Split(Join(words, " > ") + post, '>');
      |ps| == |words| && forall i | 0 <= i < |ps| :: Strip(ps[i]) == words[i]
  {
    var none: string := [];
    SplitChevrons(none, words, post);
    assert none + Join(words, " > ") + post == Join(words, " > ") + post;
  }

  /** Segmenting a line written as `" > ".join(words)`, with whitespace after it, gives the words back. */
  lemma SegmentsPadded(words: seq<string>, post: string)
    requires |words| > 0 && AllSpace(post)
    requires forall i | 0 <= i < |words| :: Trimmed(words[i]) && '>' !in words[i]
    ensures Segments(Join(words, " > ") + post) == words
  {
    PaddedPieces(words, post);
    StripAllIs(Split(Join(words, " > ") + post, '>'), words);
  }

  /** Segmenting a line written as `" > ".join(words)` gives the words back. */
  lemma SegmentsOfJoin(words: seq<string>)
    requires |words| > 0
    requires forall i | 0 <= i < |words| :: Trimmed(words[i]) && '>' !in words[i]
    ensures Segments(Join(words, " > ")) == words
  {
    SegmentsPadded(words, []);
    assert Join(words, " > ") + [] == Join(words, " > ");
  }

  // ---------------------------------------------------------------------------
  // Decimal digits: isdigit, int(...) and str(...)
  // ---------------------------------------------------------------------------

  predicate IsDigit(c: char) {
    '0' <= c <= '9'
  }

  /** Python `s.isdigit()`, restricted to ASCII digits. */
  predicate IsDigits(s: string) {
    |s| > 0 && forall i | 0 <= i < |s| :: IsDigit(s[i])
  }

  function DigitValue(c: char): nat
    requires IsDigit(c)
  {
    (c as int - '0' as int) as nat
  }

  function DigitChar(d: nat): (c: char)
    requires d < 10
    ensures IsDigit(c) && DigitValue(c) == d
  {
    ('0' as int + d) as char
  }

  /** Python `int(s)` on a decimal digit string (leading zeros allowed). */
  function ParseNat(s: string): nat
    requires forall i | 0 <= i < |s| :: IsDigit(s[i])
  {
    if |s| == 0 then 0 else 10 * ParseNat(s[..|s| - 1]) + DigitValue(s[|s| - 1])
  }

  /** Python `str(n)` for a natural number: canonical decimal, no leading zero. */
  function NatToString(n: nat): (r: string)
    ensures IsDigits(r)
    ensures r[0] == '0' ==> n == 0
  {
    if n < 10 then [DigitChar(n)] else NatToString(n / 10) + [DigitChar(n % 10)]
  }

  /** `int(str(n)) == n`. */
  lemma {:induction false} ParseNatToString(n: nat)
    ensures ParseNat(NatToString(n)) == n
  {
    if n >= 10 {
      ParseNatToString(n / 10);
      var s := NatToString(n);
      assert s[..|s| - 1] == NatToString(n / 10);
    }
  }

  /** A digit string that starts with a non-zero digit denotes a positive number. */
  lemma {:induction false} ParseNatPositive(s: string)
    requires IsDigits(s) && s[0] != '0'
    ensures ParseNat(s) > 0
  {
    if |s| > 1 {
      ParseNatPositive(s[..|s| - 1]);
    }
  }

  /**
   * `str(int(s)) == s` exactly when `s` is canonical (a single digit, or no
   * leading zero): `int` forgets leading zeros and `str` never writes them.
   */
  lemma {:induction false} NatToStringParse(s: string)
    requires IsDigits(s)
    ensures NatToString(ParseNat(s)) == s <==> (|s| == 1 || s[0] != '0')
  {
    if |s| == 1 {
      assert s[..0] == [];
      assert NatToString(ParseNat(s)) == [s[0]];
    } else if s[0] != '0' {
      var init := s[..|s| - 1];
      assert IsDigits(init) && init[0] == s[0];
      NatToStringParse(init);
      ParseNatPositive(init);
      var n := ParseNat(s);
      assert n / 10 == ParseNat(init) && n % 10 == DigitValue(s[|s| - 1]);
      assert init + [s[|s| - 1]] == s;
    } else {
      // s is not canonical, and str(int(s)) never starts with a zero unless it is "0".
      var r := NatToString(ParseNat(s));
      if r[0] == '0' {
        assert ParseNat(s) == 0 && r == ['0'];
        assert |r| != |s|;
      } else {
        assert r[0] != s[0];
      }
    }
  }

  // ---------------------------------------------------------------------------
  // str.replace
  // ---------------------------------------------------------------------------

  /** `p` occurs somewhere in `s`. */
  predicate Occurs(p: string, s: string)
    decreases |s|
  {
    |p| <= |s| && (s[..|p|] == p || (|s| > 0 && Occurs(p, s[1..])))
  }

  /**
   * Python `s.replace(pat, sub)` for a non-empty `pat`: scans left to right and
   * replaces every non-overlapping occurrence; the replacement text is never
   * rescanned.
   */
  function Replace(s: string, pat: string, sub: string): string
    requires |pat| > 0
    decreases |s|
  {
    if |s| < |pat| then s
    else if s[..|pat|] == pat then sub + Replace(s[|pat|..], pat, sub)
    else [s[0]] + Replace(s[1..], pat, sub)
  }

  /** Replacing text that does not occur changes nothing. */
  lemma {:induction false} ReplaceAbsent(s: string, pat: string, sub: string)
    requires |pat| > 0 && !Occurs(pat, s)
    ensures Replace(s, pat, sub) == s
    decreases |s|
  {
    if |s| >= |pat| {
      ReplaceAbsent(s[1..], pat, sub);
      assert [s[0]] + s[1..] == s;
    }
  }

  /** Computation lemma: text that cannot start a match is copied unchanged. */
  lemma {:induction false} ReplaceSkip(a: string, rest: string, pat: string, sub: string)
    requires |pat| > 0 && pat[0] !in a
    ensures Replace(a + rest, pat, sub) == a + Replace(rest, pat, sub)
  {
    if |a| > 0 {
      var s := a + rest;
      assert |pat| <= |s| ==> s[..|pat|] != pat by {
        if |pat| <= |s| { assert s[..|pat|][0] == a[0]; }
      }
      assert s[1..] == a[1..] + rest;
      ReplaceSkip(a[1..], rest, pat, sub);
      assert [a[0]] + a[1..] == a;
    } else {
      assert a + rest == rest;
    }
  }

  /** Computation lemma: a match at the front is replaced. */
  lemma ReplaceHit(rest: string, pat: string, sub: string)
    requires |pat| > 0
    ensures Replace(pat + rest, pat, sub) == sub + Replace(rest, pat, sub)
  {
    assert (pat + rest)[..|pat|] == pat;
    assert (pat + rest)[|pat|..] == rest;
  }

  /** Computation lemma: text that does not contain the first character of `pat`. */
  lemma ReplaceNone(a: string, pat: string, sub: string)
    requires |pat| > 0 && pat[0] !in a
    ensures Replace(a, pat, sub) == a
  {
    ReplaceSkip(a, [], pat, sub);
    assert a + [] == a;
  }

  /** Text that has the length of `pat` but differs from it, and whose tail cannot start a match, is copied. */
  lemma ReplaceNearMiss(x: string, rest: string, pat: string, sub: string)
    requires |x| == |pat| > 0 && x != pat && pat[0] !in x[1..]
    ensures Replace(x + rest, pat, sub) == x + Replace(rest, pat, sub)
  {
    var s := x + rest;
    assert s[..|pat|] == x;
    assert s[1..] == x[1..] + rest;
    assert Replace(s, pat, sub) == [x[0]] + Replace(x[1..] + rest, pat, sub);
    ReplaceSkip(x[1..], rest, pat, sub);
    assert [x[0]] + (x[1..] + Replace(rest, pat, sub)) == ([x[0]] + x[1..]) + Replace(rest, pat, sub);
    assert [x[0]] + x[1..] == x;
  }

  /** `q` occurs in `a + q + b`. */
  lemma {:induction false} OccursIn(a: string, q: string, b: string)
    ensures Occurs(q, a + q + b)
    decreases |a|
  {
    if a == [] {
      assert a + q + b == q + b;
      assert (q + b)[..|q|] == q;
    } else {
      OccursIn(a[1..], q, b);
      assert (a + q + b)[1..] == a[1..] + q + b;
    }
  }

  /** An occurrence of `q` splits the text around it. */
  lemma {:induction false} OccursSplit(q: string, s: string) returns (a: string, b: string)
    requires Occurs(q, s)
    ensures s == a + q + b
    decreases |s|
  {
    if s[..|q|] == q {
      a, b := [], s[|q|..];
      assert s == s[..|q|] + s[|q|..];
    } else {
      var a', b' := OccursSplit(q, s[1..]);
      a, b := [s[0]] + a', b';
      assert s == [s[0]] + s[1..];
    }
  }

  /** Text in front of an occurrence keeps it. */
  lemma OccursAfter(pre: string, q: string, t: string)
    requires Occurs(q, t)
    ensures Occurs(q, pre + t)
  {
    var a, b := OccursSplit(q, t);
    assert pre + t == (pre + a) + q + b;
    OccursIn(pre + a, q, b);
  }

  /**
   * `replace(p, sub)` cannot overlap an occurrence of `q` when `p` is no
   * longer than `q` and not a prefix of it, `p` cannot start inside `q`, and
   * `q` cannot start inside `p`.
   */
  predicate Disjoint(p: string, q: string) {
    && 0 < |p| <= |q| && !(p <= q)
    && p[0] !in q[1..] && q[0] !in p[1..]
  }

  /** Computation lemma: with no match at the front, the first character is kept. */
  lemma ReplaceMiss(s: string, pat: string, sub: string)
    requires 0 < |pat| <= |s| && s[..|pat|] != pat
    ensures Replace(s, pat, sub) == [s[0]] + Replace(s[1..], pat, sub)
  {
  }

  /** The base case: `q` at the very front is skipped a character at a time. */
  lemma ReplaceKeepsFront(q: string, b: string, p: string, sub: string)
    requires 0 < |p| <= |q| && !(p <= q) && p[0] !in q[1..]
    ensures Occurs(q, Replace(q + b, p, sub))
  {
    var s := q + b;
    FrontMiss(q, b, p);
    ReplaceMiss(s, p, sub);
    assert s[1..] == q[1..] + b;
    ReplaceSkip(q[1..], b, p, sub);
    var r := Replace(b, p, sub);
    assert Replace(s, p, sub) == q + r;
    OccursFront(q, r);
  }

  /** A pattern that is not a prefix of `q` does not match at the front of `q + b`. */
  lemma FrontMiss(q: string, b: string, p: string)
    requires 0 < |p| <= |q| && !(p <= q)
    ensures |p| <= |q + b| && (q + b)[..|p|] != p
  {
    assert (q + b)[..|p|] == q[..|p|];
  }

  /** `q` occurs at the front of `q + r`. */
  lemma OccursFront(q: string, r: string)
    ensures Occurs(q, q + r)
  {
    assert (q + r)[..|q|] == q;
  }

  /** A match of `p` at the front of `a + q + b` ends before `q` starts, since `q[0]` is not in `p[1..]`. */
  lemma MatchEndsBefore(a: string, q: string, b: string, p: string)
    requires Disjoint(p, q) && a != [] && |a + q + b| >= |p| && (a + q + b)[..|p|] == p
    ensures |a| >= |p|
  {
    var s := a + q + b;
    assert s[|a|] == q[0];
    assert forall k | 1 <= k < |p| :: p[k] == p[1..][k - 1];
  }

  lemma {:induction false} ReplaceKeepsAt(a: string, q: string, b: string, p: string, sub: string)
    requires Disjoint(p, q)
    ensures Occurs(q, Replace(a + q + b, p, sub))
    decreases |a|
  {
    var s := a + q + b;
    if a == [] {
      assert s == q + b;
      ReplaceKeepsFront(q, b, p, sub);
    } else if s[..|p|] == p {
      MatchEndsBefore(a, q, b, p);
      assert s[|p|..] == a[|p|..] + q + b;
      ReplaceKeepsAt(a[|p|..], q, b, p, sub);
      OccursAfter(sub, q, Replace(s[|p|..], p, sub));
    } else {
      assert s[1..] == a[1..] + q + b;
      ReplaceKeepsAt(a[1..], q, b, p, sub);
      OccursAfter([s[0]], q, Replace(s[1..], p, sub));
    }
  }

  /** An occurrence of `q` that no match of `p` can overlap survives `replace(p, sub)`. */
  lemma ReplaceKeeps(s: string, q: string, p: string, sub: string)
    requires Disjoint(p, q) && Occurs(q, s)
    ensures Occurs(q, Replace(s, p, sub))
  {
    var a, b := OccursSplit(q, s);
    ReplaceKeepsAt(a, q, b, p, sub);
  }

  /** `str` of a larger number is at least as long. */
  lemma {:induction false} NatToStringLonger(m: nat, n: nat)
    requires m <= n
    ensures |NatToString(m)| <= |NatToString(n)|
  {
    if m >= 10 {
      NatToStringLonger(m / 10, n / 10);
    }
  }
}
