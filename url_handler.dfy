/**
 * Removal of the "bewit" access token from a build URL before it is shown or
 * used as a label. The source chains four `String.replaceAll` calls; each is
 * modelled as a left-to-right scanner with Java's regex semantics: matches do
 * not overlap, scanning resumes after a match, and the replacement text is
 * never rescanned.
 */
module UrlHandler {

  const QueryBewit: string := "?bewit="
  const AmpBewit: string := "&bewit="
  const BewitName: string := "bewit="

  predicate StartsWith(s: string, p: string) {
    |p| <= |s| && s[..|p|] == p
  }

  /** The character class `[^ &]` of the bewit value. */
  predicate ValueChar(c: char) { c != ' ' && c != '&' }

  /**
   * Line terminators of java.util.regex (outside UNIX_LINES mode): `$` without
   * MULTILINE also matches just before one of them ending the input.
   */
  predicate LineTerminator(c: char) {
    c == '\n' || c == '\r' || c == '\U{0085}' || c == '\U{2028}' || c == '\U{2029}'
  }

  /** Length of the greedy run `[^ &]*` at the start of `s`. */
  function ValueRun(s: string): (n: nat)
    ensures n <= |s|
    ensures forall i :: 0 <= i < n ==> ValueChar(s[i])
    ensures n < |s| ==> !ValueChar(s[n])
  {
    if s == [] || !ValueChar(s[0]) then 0 else 1 + ValueRun(s[1..])
  }

  /** A match of `lit[^ &]+` starts at the beginning of `s`. */
  predicate BewitAt(s: string, lit: string) {
    StartsWith(s, lit) && |lit| < |s| && ValueChar(s[|lit|])
  }

  /** `s.replaceAll(<lit>[^ &]+, repl)` for a literal prefix `lit`. */
  function ReplaceBewit(s: string, lit: string, repl: string): (r: string)
    requires |repl| <= |lit| + 1
    ensures |r| <= |s|
    decreases |s|
  {
    if s == [] then []
    else if BewitAt(s, lit) then
      var n := |lit| + ValueRun(s[|lit|..]);
      repl + ReplaceBewit(s[n..], lit, repl)
    else [s[0]] + ReplaceBewit(s[1..], lit, repl)
  }

  /** `s.replaceAll(<lit>, repl)` for a regex that matches the literal `lit` only. */
  function ReplaceLiteral(s: string, lit: string, repl: string): (r: string)
    requires 0 < |lit| && |repl| <= |lit|
    ensures |r| <= |s|
    decreases |s|
  {
    if s == [] then []
    else if StartsWith(s, lit) then repl + ReplaceLiteral(s[|lit|..], lit, repl)
    else [s[0]] + ReplaceLiteral(s[1..], lit, repl)
  }

  /**
   * `s.replaceAll("\\?$", "")`: removes a `?` that ends the input or stands
   * right before a final line terminator (`\r\n` counts as one). At most one
   * `?` can be followed by nothing but such a terminator, so one match at most.
   */
  function DropTrailingQuestion(s: string): (r: string)
    ensures |r| == |s| || |r| + 1 == |s|
  {
    var n := |s|;
    if 1 <= n && s[n - 1] == '?' then s[..n - 1]
    else if 2 <= n && s[n - 2] == '?' && LineTerminator(s[n - 1]) then s[..n - 2] + s[n - 1..]
    else if 3 <= n && s[n - 3..] == "?\r\n" then s[..n - 3] + "\r\n"
    else s
  }

  function RemoveBewitIfFirstArgumentInUrl(url: string): (r: string) {
    ReplaceBewit(url, QueryBewit, "?")
  }

  function RemoveBewitIfNotFirstArgumentInUrl(url: string): (r: string) {
    ReplaceBewit(url, AmpBewit, "")
  }

  function RemoveBewit(url: string): (r: string) {
    var a := RemoveBewitIfFirstArgumentInUrl(url);
    var b := RemoveBewitIfNotFirstArgumentInUrl(a);
    var c := ReplaceLiteral(b, "?&", "?");
    DropTrailingQuestion(c)
  }

  /** Every replacement substitutes a shorter or empty text, so the URL never grows. */
  lemma RemoveBewitNeverLonger(url: string)
    ensures |RemoveBewit(url)| <= |url|
  {
  }

  // ---------------------------------------------------------------------
  // Scanning facts

  /** A prefix free of the pattern's first character passes through unchanged. */
  lemma {:induction false} ReplaceBewitPlainPrefix(x: string, y: string, lit: string, repl: string)
    requires |lit| > 0 && |repl| <= |lit| + 1
    requires forall i :: 0 <= i < |x| ==> x[i] != lit[0]
    ensures ReplaceBewit(x + y, lit, repl) == x + ReplaceBewit(y, lit, repl)
    decreases |x|
  {
    if x != [] {
      var s := x + y;
      assert s[0] == x[0] && !BewitAt(s, lit);
      assert s[1..] == x[1..] + y;
      ReplaceBewitPlainPrefix(x[1..], y, lit, repl);
      assert [x[0]] + x[1..] == x;
    } else {
      assert x + y == y;
    }
  }

  lemma {:induction false} ReplaceLiteralPlainPrefix(x: string, y: string, lit: string, repl: string)
    requires 0 < |lit| && |repl| <= |lit|
    requires forall i :: 0 <= i < |x| ==> x[i] != lit[0]
    ensures ReplaceLiteral(x + y, lit, repl) == x + ReplaceLiteral(y, lit, repl)
    decreases |x|
  {
    if x != [] {
      var s := x + y;
      assert s[0] == x[0] && !StartsWith(s, lit);
      assert s[1..] == x[1..] + y;
      ReplaceLiteralPlainPrefix(x[1..], y, lit, repl);
      assert [x[0]] + x[1..] == x;
    } else {
      assert x + y == y;
    }
  }

  // Sequence identities, kept apart so that no scanner term is in scope
  // while the solver proves them.

  lemma Assoc(a: string, b: string, c: string)
    ensures a + b + c == a + (b + c)
  {
  }

  lemma Assoc4(a: string, b: string, c: string, d: string)
    ensures a + b + c + d == a + (b + c + d)
    ensures a + b + c + d == a + b + (c + d)
  {
  }

  lemma ConsTail(c: char, w: string)
    ensures ([c] + w)[0] == c && ([c] + w)[1..] == w
  {
  }

  /** A character that does not start a match is copied and the scan moves on. */
  lemma NoMatchStep(c: char, w: string, lit: string, repl: string)
    requires |repl| <= |lit| + 1
    requires !BewitAt([c] + w, lit)
    ensures ReplaceBewit([c] + w, lit, repl) == [c] + ReplaceBewit(w, lit, repl)
  {
    ConsTail(c, w);
  }

  /**
   * The value removed with the bewit is the non-empty run of characters up to
   * the next space or `&` (or the end); what follows it is scanned on as usual.
   */
  lemma SkipsBewitValue(x: string, lit: string, repl: string, v: string, t: string)
    requires |lit| > 0 && |repl| <= |lit| + 1
    requires forall i :: 0 <= i < |x| ==> x[i] != lit[0]
    requires |v| > 0 && forall i :: 0 <= i < |v| ==> ValueChar(v[i])
    requires t == [] || !ValueChar(t[0])
    ensures ReplaceBewit(x + lit + v + t, lit, repl) == x + repl + ReplaceBewit(t, lit, repl)
  {
    Assoc4(x, lit, v, t);
    ReplaceBewitPlainPrefix(x, lit + v + t, lit, repl);
    MatchStep(lit, repl, v, t);
    Assoc(x, repl, ReplaceBewit(t, lit, repl));
  }

  /** One match of `lit[^ &]+` at the start, followed by a stop character or the end. */
  lemma MatchStep(lit: string, repl: string, v: string, t: string)
    requires |lit| > 0 && |repl| <= |lit| + 1
    requires |v| > 0 && forall i :: 0 <= i < |v| ==> ValueChar(v[i])
    requires t == [] || !ValueChar(t[0])
    ensures ReplaceBewit(lit + v + t, lit, repl) == repl + ReplaceBewit(t, lit, repl)
  {
    var s := lit + v + t;
    assert s[..|lit|] == lit;
    assert s[|lit|] == v[0];
    assert BewitAt(s, lit);
    assert s[|lit|..] == v + t;
    ValueRunStops(v, t);
    assert s[|lit| + |v|..] == t;
  }

  lemma {:induction false} ValueRunStops(v: string, t: string)
    requires forall i :: 0 <= i < |v| ==> ValueChar(v[i])
    requires t == [] || !ValueChar(t[0])
    ensures ValueRun(v + t) == |v|
    decreases |v|
  {
    if v == [] {
      assert v + t == t;
    } else {
      assert (v + t)[0] == v[0];
      assert (v + t)[1..] == v[1..] + t;
      ValueRunStops(v[1..], t);
    }
  }

  // ---------------------------------------------------------------------
  // Query strings built from ordinary arguments

  /** Characters of an ordinary URL piece: no `?`, `&`, space or line terminator. */
  predicate PlainChar(c: char) {
    c != '?' && c != '&' && c != ' ' && !LineTerminator(c)
  }

  predicate Plain(s: string) {
    forall i :: 0 <= i < |s| ==> PlainChar(s[i])
  }

  /** An ordinary query argument: non-empty, plain, and not itself a bewit. */
  predicate Argument(p: string) {
    |p| > 0 && Plain(p) && !StartsWith(p, BewitName)
  }

  /** Arguments joined by `&`. */
  function Join(ps: seq<string>): string {
    if |ps| == 0 then "" else if |ps| == 1 then ps[0] else ps[0] + "&" + Join(ps[1..])
  }

  /** The query part of a URL: empty without arguments, `?a&b...` otherwise. */
  function Query(ps: seq<string>): string {
    if ps == [] then "" else "?" + Join(ps)
  }

  /** What follows an argument in a joined list: nothing, or `&` and more. */
  predicate Separated(z: string) { z == [] || z[0] == '&' }

  lemma {:induction false} JoinFacts(ps: seq<string>)
    requires forall i :: 0 <= i < |ps| ==> Argument(ps[i])
    ensures forall i :: 0 <= i < |Join(ps)| ==> Join(ps)[i] != '?' && Join(ps)[i] != ' '
    ensures ps != [] ==> |Join(ps)| > 0 && PlainChar(Join(ps)[|Join(ps)| - 1])
    ensures ps != [] ==> StartsWith(Join(ps), ps[0]) && (|ps[0]| == |Join(ps)| || Join(ps)[|ps[0]|] == '&')
  {
    if |ps| > 1 {
      JoinFacts(ps[1..]);
      var j := Join(ps);
      assert j == ps[0] + ("&" + Join(ps[1..]));
      forall i | 0 <= i < |j| ensures j[i] != '?' && j[i] != ' ' {
        if i < |ps[0]| { assert j[i] == ps[0][i]; }
        else if i > |ps[0]| { assert j[i] == Join(ps[1..])[i - |ps[0]| - 1]; }
      }
      assert j[|j| - 1] == Join(ps[1..])[|Join(ps[1..])| - 1];
      assert j[..|ps[0]|] == ps[0];
    } else if |ps| == 1 {
      assert Join(ps) == ps[0];
      assert Plain(ps[0]);
    }
  }

  lemma JoinAppend(a: seq<string>, b: seq<string>)
    requires a != [] && b != []
    ensures Join(a + b) == Join(a) + "&" + Join(b)
    decreases |a|
  {
    if |a| == 1 {
      assert (a + b)[0] == a[0] && (a + b)[1..] == b;
    } else {
      assert (a + b)[1..] == a[1..] + b;
      JoinAppend(a[1..], b);
    }
  }

  /** An argument followed by a separator can never read as `bewit=`. */
  lemma ArgumentIsNotBewit(p: string, z: string)
    requires Argument(p) && Separated(z)
    ensures !StartsWith(p + z, BewitName)
  {
    if |p| >= |BewitName| {
      assert (p + z)[..|BewitName|] == p[..|BewitName|];
    } else if |BewitName| <= |p + z| {
      assert (p + z)[..|BewitName|][|p|] == z[0];
    }
  }

  lemma SplitFirstArgument(ps: seq<string>, y: string)
    requires |ps| > 1
    ensures Join(ps) + y == ps[0] + ("&" + (Join(ps[1..]) + y))
  {
    Assoc4(ps[0], "&", Join(ps[1..]), y);
  }

  /** `&bewit=` removal passes over a list of ordinary arguments unchanged. */
  lemma {:induction false} AmpPassOverArguments(ps: seq<string>, y: string)
    requires forall i :: 0 <= i < |ps| ==> Argument(ps[i])
    requires Separated(y)
    ensures ReplaceBewit(Join(ps) + y, AmpBewit, "") == Join(ps) + ReplaceBewit(y, AmpBewit, "")
    decreases |ps|
  {
    if |ps| == 1 {
      assert Join(ps) == ps[0];
      ReplaceBewitPlainPrefix(ps[0], y, AmpBewit, "");
    } else if |ps| > 1 {
      var w := Join(ps[1..]) + y;
      var rest := "&" + w;
      JoinFacts(ps[1..]);
      assert Separated(w[|ps[1]|..]) by {
        assert w[..|Join(ps[1..])|] == Join(ps[1..]);
        if |ps[1]| == |Join(ps[1..])| { assert w[|ps[1]|..] == y; }
        else { assert w[|ps[1]|] == Join(ps[1..])[|ps[1]|]; }
      }
      assert w == ps[1] + w[|ps[1]|..] by {
        assert w[..|ps[1]|] == Join(ps[1..])[..|ps[1]|] == ps[1];
      }
      ArgumentIsNotBewit(ps[1], w[|ps[1]|..]);
      assert !BewitAt(rest, AmpBewit) by {
        if |AmpBewit| <= |rest| {
          assert rest[..|AmpBewit|][1..] == w[..|BewitName|];
          assert AmpBewit[1..] == BewitName;
        }
      }
      SplitFirstArgument(ps, y);
      ReplaceBewitPlainPrefix(ps[0], rest, AmpBewit, "");
      assert ReplaceBewit(Join(ps) + y, AmpBewit, "") == ps[0] + ReplaceBewit(rest, AmpBewit, "");
      NoMatchStep('&', w, AmpBewit, "");
      assert ReplaceBewit(rest, AmpBewit, "") == "&" + ReplaceBewit(w, AmpBewit, "");
      AmpPassOverArguments(ps[1..], y);
      assert ReplaceBewit(rest, AmpBewit, "") == "&" + (Join(ps[1..]) + ReplaceBewit(y, AmpBewit, ""));
      SplitFirstArgument(ps, ReplaceBewit(y, AmpBewit, ""));
    } else {
      assert Join(ps) + y == y;
      assert Join(ps) + ReplaceBewit(y, AmpBewit, "") == ReplaceBewit(y, AmpBewit, "");
    }
  }

  predicate NoQuestion(s: string) {
    forall i :: 0 <= i < |s| ==> s[i] != '?'
  }

  /** A string without `?` is left alone by the passes that look for `?`. */
  lemma NoQuestionPasses(s: string)
    requires NoQuestion(s)
    ensures ReplaceBewit(s, QueryBewit, "?") == s
    ensures ReplaceLiteral(s, "?&", "?") == s
  {
    ReplaceBewitPlainPrefix(s, [], QueryBewit, "?");
    ReplaceLiteralPlainPrefix(s, [], "?&", "?");
    assert s + [] == s;
  }

  /** No `&bewit=` match anywhere: the second pass is the identity. */
  lemma {:induction false} AmpPassIdentity(s: string)
    requires forall i :: 0 <= i <= |s| ==> !BewitAt(s[i..], AmpBewit)
    ensures ReplaceBewit(s, AmpBewit, "") == s
    decreases |s|
  {
    if s != [] {
      assert s[0..] == s;
      forall i | 0 <= i <= |s[1..]| ensures !BewitAt(s[1..][i..], AmpBewit) {
        assert s[1..][i..] == s[i + 1..];
      }
      AmpPassIdentity(s[1..]);
      assert [s[0]] + s[1..] == s;
    }
  }

  /** A URL with no `?` and no `&bewit=` occurrence is returned unchanged. */
  lemma NoQueryUnchanged(url: string)
    requires NoQuestion(url)
    requires forall i :: 0 <= i <= |url| ==> !StartsWith(url[i..], AmpBewit)
    ensures RemoveBewit(url) == url
  {
    NoQuestionPasses(url);
    NoAmpBewitAt(url);
    AmpPassIdentity(url);
    NoQuestionPass4(url);
    Passes(url, url, url, url, url);
  }

  lemma NoAmpBewitAt(s: string)
    requires forall i :: 0 <= i <= |s| ==> !StartsWith(s[i..], AmpBewit)
    ensures forall i :: 0 <= i <= |s| ==> !BewitAt(s[i..], AmpBewit)
  {
  }

  /** Pass 4 leaves a URL without `?` alone. */
  lemma NoQuestionPass4(s: string)
    requires NoQuestion(s)
    ensures DropTrailingQuestion(s) == s
  {
    if 0 < |s| { assert s[|s| - 1] != '?'; }
    if 2 <= |s| { assert s[|s| - 2] != '?'; }
    if 3 <= |s| { assert s[|s| - 3..][0] == s[|s| - 3]; }
  }

  /** What follows the first argument of a list: nothing, or `&` and the others. */
  function Rest(ps: seq<string>): string {
    if ps == [] then "" else "&" + Join(ps)
  }

  lemma {:induction false} JoinCons(p: string, ps: seq<string>)
    ensures Join([p] + ps) == p + Rest(ps)
  {
    if ps != [] { assert ([p] + ps)[1..] == ps; }
  }

  lemma RestFacts(ps: seq<string>)
    requires forall i :: 0 <= i < |ps| ==> Argument(ps[i])
    ensures Separated(Rest(ps)) && NoQuestion(Rest(ps))
    ensures ReplaceBewit(Rest(ps), AmpBewit, "") == Rest(ps)
  {
    if ps != [] {
      JoinFacts(ps);
      var r := Rest(ps);
      forall i | 0 <= i < |r| ensures r[i] != '?' {
        if i > 0 { assert r[i] == Join(ps)[i - 1]; }
      }
      var xs := ["x"] + ps;
      assert forall i :: 0 <= i < |xs| ==> Argument(xs[i]) by {
        assert Argument("x") by { assert "x"[0] != BewitName[0]; }
      }
      JoinCons("x", ps);
      calc {
        "x" + ReplaceBewit(r, AmpBewit, "");
        { ReplaceBewitPlainPrefix("x", r, AmpBewit, ""); }
        ReplaceBewit("x" + r, AmpBewit, "");
        { assert "x" + r == Join(xs) + []; }
        ReplaceBewit(Join(xs) + [], AmpBewit, "");
        { AmpPassOverArguments(xs, []); }
        Join(xs) + ReplaceBewit([], AmpBewit, "");
        "x" + r;
      }
      assert ("x" + ReplaceBewit(r, AmpBewit, ""))[1..] == ReplaceBewit(r, AmpBewit, "");
      assert ("x" + r)[1..] == r;
    }
  }

  /** A non-empty argument list splits into its first argument and a separated rest. */
  lemma FirstArgumentSplit(ps: seq<string>, y: string) returns (z: string)
    requires ps != [] && Separated(y)
    ensures Join(ps) + y == ps[0] + z && Separated(z)
  {
    if |ps| == 1 {
      z := y;
    } else {
      z := "&" + (Join(ps[1..]) + y);
      SplitFirstArgument(ps, y);
    }
  }

  lemma AfterQuestion(j: string)
    ensures StartsWith("?" + j, QueryBewit) ==> StartsWith(j, BewitName)
    ensures StartsWith("?" + j, "?&") ==> |j| > 0 && j[0] == '&'
  {
    if StartsWith("?" + j, QueryBewit) {
      assert ("?" + j)[..|QueryBewit|][1..] == j[..|BewitName|];
    }
    if StartsWith("?" + j, "?&") {
      assert ("?" + j)[..2][1] == j[0];
    }
  }

  /** The first argument after `?` is neither a bewit nor empty. */
  lemma QuestionThenArguments(ps: seq<string>, y: string)
    requires ps != [] && forall i :: 0 <= i < |ps| ==> Argument(ps[i])
    requires Separated(y)
    ensures !BewitAt("?" + (Join(ps) + y), QueryBewit)
    ensures !StartsWith("?" + (Join(ps) + y), "?&")
  {
    var z := FirstArgumentSplit(ps, y);
    ArgumentIsNotBewit(ps[0], z);
    AfterQuestion(ps[0] + z);
    assert (ps[0] + z)[0] == ps[0][0];
  }

  lemma QuestionThenAllArguments(ps: seq<string>)
    requires ps != [] && forall i :: 0 <= i < |ps| ==> Argument(ps[i])
    ensures !BewitAt("?" + Join(ps), QueryBewit)
    ensures !StartsWith("?" + Join(ps), "?&")
  {
    QuestionThenArguments(ps, []);
    AppendEmpty(Join(ps));
  }

  lemma AppendEmpty(s: string)
    ensures s + [] == s && [] + s == s
  {
  }

  lemma NoQuestionConcat(x: string, y: string)
    requires NoQuestion(x) && NoQuestion(y)
    ensures NoQuestion(x + y)
  {
    assert forall i :: 0 <= i < |x + y| ==> (x + y)[i] == if i < |x| then x[i] else y[i - |x|];
  }

  lemma NoLiteralStep(c: char, w: string, lit: string, repl: string)
    requires 0 < |lit| && |repl| <= |lit|
    requires !StartsWith([c] + w, lit)
    ensures ReplaceLiteral([c] + w, lit, repl) == [c] + ReplaceLiteral(w, lit, repl)
  {
    ConsTail(c, w);
  }

  lemma LiteralMatchStep(lit: string, repl: string, w: string)
    requires 0 < |lit| && |repl| <= |lit|
    ensures ReplaceLiteral(lit + w, lit, repl) == repl + ReplaceLiteral(w, lit, repl)
  {
    assert (lit + w)[..|lit|] == lit && (lit + w)[|lit|..] == w;
  }

  /** Pass 1 leaves `base?tail` alone when the `?` does not start a bewit. */
  lemma Pass1Idle(base: string, tail: string)
    requires Plain(base) && NoQuestion(tail)
    requires !BewitAt("?" + tail, QueryBewit)
    ensures RemoveBewitIfFirstArgumentInUrl(base + ("?" + tail)) == base + ("?" + tail)
  {
    ReplaceBewitPlainPrefix(base, "?" + tail, QueryBewit, "?");
    NoMatchStep('?', tail, QueryBewit, "?");
    NoQuestionPasses(tail);
  }

  /** Pass 2 only looks past the `?`: there is no `&` before it. */
  lemma Pass2Over(base: string, tail: string)
    requires Plain(base)
    ensures RemoveBewitIfNotFirstArgumentInUrl(base + ("?" + tail))
         == base + ("?" + RemoveBewitIfNotFirstArgumentInUrl(tail))
  {
    ReplaceBewitPlainPrefix(base, "?" + tail, AmpBewit, "");
    assert !BewitAt("?" + tail, AmpBewit) by {
      if |AmpBewit| <= |"?" + tail| { assert ("?" + tail)[..|AmpBewit|][0] == '?'; }
    }
    NoMatchStep('?', tail, AmpBewit, "");
  }

  /** Pass 3 leaves `base?tail` alone when no `&` follows the `?`. */
  lemma Pass3Idle(base: string, tail: string)
    requires Plain(base) && NoQuestion(tail)
    requires !StartsWith("?" + tail, "?&")
    ensures ReplaceLiteral(base + ("?" + tail), "?&", "?") == base + ("?" + tail)
  {
    ReplaceLiteralPlainPrefix(base, "?" + tail, "?&", "?");
    NoLiteralStep('?', tail, "?&", "?");
    NoQuestionPasses(tail);
  }

  /** Pass 3 turns `base?&tail` into `base?tail`. */
  lemma Pass3Collapses(base: string, tail: string)
    requires Plain(base) && NoQuestion(tail)
    ensures ReplaceLiteral(base + ("?&" + tail), "?&", "?") == base + ("?" + tail)
  {
    ReplaceLiteralPlainPrefix(base, "?&" + tail, "?&", "?");
    LiteralMatchStep("?&", "?", tail);
    NoQuestionPasses(tail);
  }

  /** Pass 4 leaves a URL alone whose last character is plain. */
  lemma Pass4Idle(s: string)
    requires |s| > 0 && PlainChar(s[|s| - 1])
    ensures DropTrailingQuestion(s) == s
  {
    if 3 <= |s| { assert s[|s| - 3..][2] == s[|s| - 1]; }
  }

  /** Pass 4 drops the `?` that ends the URL. */
  lemma Pass4Drops(base: string)
    ensures DropTrailingQuestion(base + ("?" + [])) == base
  {
    assert base + ("?" + []) == base + "?";
    assert (base + "?")[..|base|] == base;
  }

  /** Passes 3 and 4 leave `base` followed by a non-empty ordinary query alone. */
  lemma LastPassesIdle(base: string, args: seq<string>)
    requires Plain(base)
    requires args != [] && forall i :: 0 <= i < |args| ==> Argument(args[i])
    ensures ReplaceLiteral(base + Query(args), "?&", "?") == base + Query(args)
    ensures DropTrailingQuestion(base + Query(args)) == base + Query(args)
  {
    var j := Join(args);
    JoinFacts(args);
    QuestionThenAllArguments(args);
    Pass3Idle(base, j);
    var s := base + ("?" + j);
    assert s[|s| - 1] == j[|j| - 1];
    Pass4Idle(s);
  }

  /** The four passes, one after the other. */
  lemma Passes(s: string, p1: string, p2: string, p3: string, p4: string)
    requires RemoveBewitIfFirstArgumentInUrl(s) == p1
    requires RemoveBewitIfNotFirstArgumentInUrl(p1) == p2
    requires ReplaceLiteral(p2, "?&", "?") == p3
    requires DropTrailingQuestion(p3) == p4
    ensures RemoveBewit(s) == p4
  {
  }

  /** A base URL followed by ordinary arguments, none a bewit, is returned unchanged. */
  lemma ArgumentsWithoutBewitUnchanged(base: string, args: seq<string>)
    requires Plain(base)
    requires args != [] && forall i :: 0 <= i < |args| ==> Argument(args[i])
    ensures RemoveBewit(base + Query(args)) == base + Query(args)
  {
    var j := Join(args);
    JoinFacts(args);
    QuestionThenAllArguments(args);
    Pass1Idle(base, j);
    Pass2Over(base, j);
    AmpPassOverArguments(args, []);
    AppendEmpty(j);
    LastPassesIdle(base, args);
    var s := base + Query(args);
    Passes(s, s, s, s, s);
  }

  lemma FirstBewitShape(base: string, v: string, args: seq<string>)
    ensures base + Query([BewitName + v] + args) == base + QueryBewit + v + Rest(args)
  {
    var r := Rest(args);
    JoinCons(BewitName + v, args);
    assert Query([BewitName + v] + args) == "?" + ((BewitName + v) + r);
    assert QueryBewit == "?" + BewitName;
    Assoc("?", BewitName, v);
    Assoc("?", BewitName + v, r);
    Assoc4(base, QueryBewit, v, r);
  }

  lemma FirstBewitPass1(base: string, v: string, args: seq<string>)
    requires Plain(base)
    requires forall i :: 0 <= i < |args| ==> Argument(args[i])
    requires |v| > 0 && Plain(v)
    ensures RemoveBewitIfFirstArgumentInUrl(base + Query([BewitName + v] + args)) == base + ("?" + Rest(args))
  {
    var after := Rest(args);
    RestFacts(args);
    FirstBewitShape(base, v, args);
    SkipsBewitValue(base, QueryBewit, "?", v, after);
    NoQuestionPasses(after);
    Assoc(base, "?", after);
  }

  /** The bewit as the first argument: pass 1 removes it and keeps the `?`. */
  lemma FirstBewitRemoved(base: string, args: seq<string>, v: string)
    requires Plain(base)
    requires forall i :: 0 <= i < |args| ==> Argument(args[i])
    requires |v| > 0 && Plain(v)
    ensures RemoveBewit(base + Query([BewitName + v] + args)) == base + Query(args)
  {
    var s := base + Query([BewitName + v] + args);
    FirstBewitPass1(base, v, args);
    RestFacts(args);
    var p1 := base + ("?" + Rest(args));
    Pass2Over(base, Rest(args));
    if args == [] {
      Pass3Idle(base, []);
      Pass4Drops(base);
      Passes(s, p1, p1, p1, base);
    } else {
      var j := Join(args);
      JoinFacts(args);
      QuestionAmp(j);
      Pass3Collapses(base, j);
      LastPassesIdle(base, args);
      Passes(s, p1, p1, base + ("?" + j), base + ("?" + j));
    }
  }

  lemma QuestionAmp(j: string)
    ensures "?" + ("&" + j) == "?&" + j
  {
    assert "?" + "&" == "?&";
    Assoc("?", "&", j);
  }

  lemma LaterBewitShape(a: seq<string>, v: string, b: seq<string>)
    requires a != []
    ensures Join(a + [BewitName + v] + b) == Join(a) + (AmpBewit + v + Rest(b))
    ensures Join(a + b) == Join(a) + Rest(b)
  {
    var bw := BewitName + v;
    assert a + [bw] + b == a + ([bw] + b);
    JoinAppend(a, [bw] + b);
    JoinCons(bw, b);
    AmpShape(Join(a), v, Rest(b));
    JoinRest(a, b);
  }

  lemma AmpShape(j: string, v: string, r: string)
    ensures j + "&" + (BewitName + v + r) == j + (AmpBewit + v + r)
  {
    assert AmpBewit == "&" + BewitName;
  }

  lemma JoinRest(a: seq<string>, b: seq<string>)
    requires a != []
    ensures Join(a + b) == Join(a) + Rest(b)
  {
    if b == [] {
      assert a + b == a;
    } else {
      JoinAppend(a, b);
    }
  }

  /** The bewit after at least one argument: pass 2 removes it with its `&`. */
  lemma LaterBewitRemoved(base: string, a: seq<string>, v: string, b: seq<string>)
    requires Plain(base)
    requires a != [] && forall i :: 0 <= i < |a| ==> Argument(a[i])
    requires forall i :: 0 <= i < |b| ==> Argument(b[i])
    requires |v| > 0 && Plain(v)
    ensures RemoveBewit(base + Query(a + [BewitName + v] + b)) == base + Query(a + b)
  {
    LaterBewitShape(a, v, b);
    var s := base + ("?" + (Join(a) + (AmpBewit + v + Rest(b))));
    var p2 := base + ("?" + (Join(a) + Rest(b)));
    BewitTailFacts(v, b);
    LaterPass1(base, a, AmpBewit + v + Rest(b));
    LaterPass2(base, a, v, b);
    assert forall i :: 0 <= i < |a + b| ==> Argument((a + b)[i]);
    LastPassesIdle(base, a + b);
    Passes(s, s, p2, p2, p2);
  }

  /** Pass 1 finds no bewit after the `?`: the first argument is an ordinary one. */
  lemma LaterPass1(base: string, a: seq<string>, m: string)
    requires Plain(base)
    requires a != [] && forall i :: 0 <= i < |a| ==> Argument(a[i])
    requires Separated(m) && NoQuestion(m)
    ensures RemoveBewitIfFirstArgumentInUrl(base + ("?" + (Join(a) + m))) == base + ("?" + (Join(a) + m))
  {
    JoinFacts(a);
    NoQuestionConcat(Join(a), m);
    QuestionThenArguments(a, m);
    Pass1Idle(base, Join(a) + m);
  }

  /** What follows the arguments before the bewit: `&bewit=<v>` and the other arguments. */
  lemma BewitTailFacts(v: string, b: seq<string>)
    requires forall i :: 0 <= i < |b| ==> Argument(b[i])
    requires |v| > 0 && Plain(v)
    ensures Separated(AmpBewit + v + Rest(b)) && NoQuestion(AmpBewit + v + Rest(b))
  {
    RestFacts(b);
    assert NoQuestion(AmpBewit);
    NoQuestionConcat(AmpBewit, v);
    NoQuestionConcat(AmpBewit + v, Rest(b));
  }

  /** Pass 2 removes `&bewit=<v>` and nothing else. */
  lemma LaterPass2(base: string, a: seq<string>, v: string, b: seq<string>)
    requires Plain(base)
    requires forall i :: 0 <= i < |a| ==> Argument(a[i])
    requires forall i :: 0 <= i < |b| ==> Argument(b[i])
    requires |v| > 0 && Plain(v)
    ensures RemoveBewitIfNotFirstArgumentInUrl(base + ("?" + (Join(a) + (AmpBewit + v + Rest(b)))))
         == base + ("?" + (Join(a) + Rest(b)))
  {
    var m := AmpBewit + v + Rest(b);
    RestFacts(b);
    Pass2Over(base, Join(a) + m);
    AmpPassOverArguments(a, m);
    MatchStep(AmpBewit, "", v, Rest(b));
    AppendEmpty(Rest(b));
  }

  /**
   * The bewit argument is removed wherever it stands among ordinary
   * arguments: the other arguments keep their order, no `?&` and no trailing
   * `&` is left, and the `?` goes too when the bewit was the only argument.
   * The bewit value is taken plain here, which is narrower than the value
   * the pattern accepts (anything but a space or `&`): a `?` or a line
   * terminator in the value would meet the later passes, which this lemma
   * does not follow for such values.
   */
  lemma RemoveBewitFromQuery(base: string, args: seq<string>, k: nat, v: string)
    requires Plain(base)
    requires forall i :: 0 <= i < |args| ==> Argument(args[i])
    requires |v| > 0 && Plain(v)
    requires k <= |args|
    ensures RemoveBewit(base + Query(args[..k] + [BewitName + v] + args[k..])) == base + Query(args)
  {
    assert args == args[..k] + args[k..];
    if k == 0 {
      assert args[..k] + [BewitName + v] + args[k..] == [BewitName + v] + args;
      FirstBewitRemoved(base, args, v);
    } else {
      LaterBewitRemoved(base, args[..k], v, args[k..]);
    }
  }

  // ---------------------------------------------------------------------
  // The cases of the unit tests, for any base URL, arguments and bewit value
  // of the kind the tests use

  const DefaultUrl: string := "https://domain-name.tld/resource"
  const DefaultValue: string := "my-bewit"
  const OneParam: string := "oneParam=1"
  const OtherParam: string := "otherParam=2"

  /** The fixtures of the unit tests meet the preconditions of the lemmas below. */
  lemma TestFixturesArePlain()
    ensures Plain(DefaultUrl) && |DefaultValue| > 0 && Plain(DefaultValue)
    ensures Argument(OneParam) && Argument(OtherParam)
  {
    assert OneParam[..|BewitName|] != BewitName by { assert OneParam[0] != BewitName[0]; }
    assert OtherParam[..|BewitName|] != BewitName by { assert OtherParam[0] != BewitName[0]; }
  }

  lemma NoArgumentReturnedAsIs(u: string)
    requires Plain(u)
    ensures RemoveBewit(u) == u
  {
    forall i | 0 <= i <= |u| ensures !StartsWith(u[i..], AmpBewit) {
      if i < |u| { assert u[i..][0] == u[i]; }
    }
    NoQueryUnchanged(u);
  }

  lemma ArgumentButNoBewitReturnedAsIs(u: string, p: string)
    requires Plain(u) && Argument(p)
    ensures RemoveBewit(u + "?" + p) == u + "?" + p
  {
    OneArgumentShape(u, p);
    ArgumentsWithoutBewitUnchanged(u, [p]);
  }

  lemma OnlyArgumentDropsQuestionMark(u: string, v: string)
    requires Plain(u) && |v| > 0 && Plain(v)
    ensures RemoveBewit(u + "?" + BewitName + v) == u
  {
    var none: seq<string> := [];
    OneArgumentShape(u, BewitName + v);
    Assoc(u + "?", BewitName, v);
    assert [BewitName + v] + none == [BewitName + v];
    FirstBewitRemoved(u, none, v);
    assert u + Query(none) == u;
  }

  lemma MiddleBewitRemoved(u: string, p: string, v: string, q: string)
    requires Plain(u) && Argument(p) && Argument(q) && |v| > 0 && Plain(v)
    ensures RemoveBewit(u + "?" + p + "&" + BewitName + v + "&" + q) == u + "?" + p + "&" + q
  {
    ThreeArgumentShape(u, p, BewitName, v, q);
    TwoArgumentShape(u, p, q);
    LaterBewitRemoved(u, [p], v, [q]);
    assert [p] + [q] == [p, q];
    assert [p] + [BewitName + v] + [q] == [p, BewitName + v, q];
  }

  lemma FirstBewitKeepsQuestionMark(u: string, v: string, p: string)
    requires Plain(u) && Argument(p) && |v| > 0 && Plain(v)
    ensures RemoveBewit(u + "?" + BewitName + v + "&" + p) == u + "?" + p
  {
    TwoArgumentShape(u, BewitName + v, p);
    Assoc(u + "?", BewitName, v);
    OneArgumentShape(u, p);
    FirstBewitRemoved(u, [p], v);
    assert [BewitName + v] + [p] == [BewitName + v, p];
  }

  lemma TrailingBewitLeavesNoAmpersand(u: string, p: string, v: string)
    requires Plain(u) && Argument(p) && |v| > 0 && Plain(v)
    ensures RemoveBewit(u + "?" + p + "&" + BewitName + v) == u + "?" + p
  {
    var none: seq<string> := [];
    TwoArgumentShape(u, p, BewitName + v);
    Assoc(u + "?" + p + "&", BewitName, v);
    OneArgumentShape(u, p);
    LaterBewitRemoved(u, [p], v, none);
    assert [p] + none == [p];
    assert [p] + [BewitName + v] + none == [p, BewitName + v];
  }

  lemma OneArgumentShape(u: string, p: string)
    ensures u + "?" + p == u + Query([p])
  {
  }

  lemma TwoArgumentShape(u: string, p: string, q: string)
    ensures u + "?" + p + "&" + q == u + Query([p, q])
  {
    assert [p, q][1..] == [q];
    assert Join([p, q]) == p + "&" + q;
  }

  lemma ThreeArgumentShape(u: string, p: string, b: string, v: string, q: string)
    ensures u + "?" + p + "&" + b + v + "&" + q == u + Query([p, b + v, q])
  {
    var x := b + v;
    JoinThree(p, x, q);
    Assoc(u + "?" + p + "&", b, v);
    Flatten7(u, "?", p, "&", x, "&", q);
  }

  lemma JoinThree(p: string, x: string, q: string)
    ensures Query([p, x, q]) == "?" + (p + ("&" + (x + ("&" + q))))
  {
    assert [p, x, q][1..] == [x, q];
    assert [x, q][1..] == [q];
    assert Join([x, q]) == x + "&" + q;
    assert Join([p, x, q]) == p + "&" + Join([x, q]);
    Assoc(x, "&", q);
    Assoc(p, "&", x + ("&" + q));
  }

  lemma Flatten7(a: string, b: string, c: string, d: string, e: string, f: string, g: string)
    ensures a + b + c + d + e + f + g == a + (b + (c + (d + (e + (f + g)))))
  {
    Assoc(a + b + c + d + e, f, g);
    Assoc(a + b + c + d, e, f + g);
    Assoc(a + b + c, d, e + (f + g));
    Assoc(a + b, c, d + (e + (f + g)));
    Assoc(a, b, c + (d + (e + (f + g))));
  }
}
