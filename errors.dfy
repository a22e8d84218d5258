/**
 * Go error values as the client service builds them, and the part of `fmt`
 * that turns a format string into an error message when no arguments follow it.
 */
module Errors {

  /** An error value, identified the way the callers of the client service can tell errors apart. */
  datatype Error =
    | InvalidServerAddress                          // the package's sentinel ErrInvalidServerAddress
    | Plain(message: string)                        // an error that carries only its text
    | Wrapped(prefix: string, cause: Error, suffix: string)
      // fmt.Errorf with one %w verb: the text is prefix + cause's text + suffix, and cause stays reachable

  /** fmt.Errorf(format) with no arguments: a plain error whose text is the formatted string. */
  function Errorf(format: string): (e: Error)
    ensures e.Plain? && e.message == FormatNoArgs(format)
    ensures NoPercent(format) ==> e.message == format
  {
    Plain(FormatNoArgs(format))
  }

  predicate NoPercent(s: string) {
    forall i :: 0 <= i < |s| ==> s[i] != '%'
  }

  predicate IsFlag(c: char) {
    c == '#' || c == '0' || c == '+' || c == '-' || c == ' '
  }

  predicate IsDigit(c: char) {
    '0' <= c <= '9'
  }

  /** The flag characters fmt skips after a '%', starting at index k. */
  function SkipFlags(f: string, k: nat): (j: nat)
    requires k <= |f|
    ensures k <= j <= |f|
    ensures forall i :: k <= i < j ==> IsFlag(f[i])
    ensures j < |f| ==> !IsFlag(f[j])
    decreases |f| - k
  {
    if k < |f| && IsFlag(f[k]) then SkipFlags(f, k + 1) else k
  }

  /**
   * fmt's parsenum: the digits of a width or precision starting at index k,
   * where num is the value read so far; a number above 10^6 that is followed by
   * another digit makes fmt give up on the rest of the format (index |f|).
   */
  function SkipNumber(f: string, k: nat, num: nat): (j: nat)
    requires k <= |f|
    ensures k <= j <= |f|
    decreases |f| - k
  {
    if k < |f| && IsDigit(f[k]) then
      if num > 1000000 then |f|
      else SkipNumber(f, k + 1, num * 10 + (f[k] as int - '0' as int))
    else k
  }

  /**
   * The index of the verb of the directive whose '%' is f[0]: after flags,
   * width and precision. A '.' starts a precision only when a character
   * follows it; a final '.' is the verb itself.
   */
  function VerbIndex(f: string): (k: nat)
    requires f != [] && f[0] == '%'
    ensures 1 <= k <= |f|
  {
    var w := SkipNumber(f, SkipFlags(f, 1), 0);
    if w + 1 < |f| && f[w] == '.' then SkipNumber(f, w + 1, 0) else w
  }

  /**
   * fmt.Sprintf(format) with no arguments: text outside directives is copied,
   * "%%" (with any flags, width or precision) prints one '%', a directive cut
   * off by the end of the format prints "%!(NOVERB)", and every other directive
   * has no operand and prints "%!" + verb + "(MISSING)".
   */
  function FormatNoArgs(f: string): (r: string)
    ensures NoPercent(f) ==> r == f
    ensures r == [] <==> f == []
    decreases |f|
  {
    if f == [] then []
    else if f[0] != '%' then [f[0]] + FormatNoArgs(f[1..])
    else
      var k := VerbIndex(f);
      if k == |f| then "%!(NOVERB)"
      else if f[k] == '%' then "%" + FormatNoArgs(f[k + 1..])
      else "%!" + [f[k]] + "(MISSING)" + FormatNoArgs(f[k + 1..])
  }

  /** Text before the first '%' is copied as it is: formatting p + g prints p, then the formatting of g. */
  lemma {:induction false} FormatNoArgsPlainPrefix(p: string, g: string)
    requires NoPercent(p)
    ensures FormatNoArgs(p + g) == p + FormatNoArgs(g)
  {
    if p == [] {
      assert p + g == g;
    } else {
      NoPercentTail(p);
      FormatNoArgsPlainPrefix(p[1..], g);
      FormatNoArgsPlainChar(p[0], p[1..] + g);
      SplitHead(p, g);
    }
  }

  lemma FormatNoArgsPlainChar(c: char, g: string)
    requires c != '%'
    ensures FormatNoArgs([c] + g) == [c] + FormatNoArgs(g)
  {
    assert ([c] + g)[1..] == g;
  }

  lemma NoPercentTail(p: string)
    requires p != [] && NoPercent(p)
    ensures p[0] != '%' && NoPercent(p[1..])
  {
    forall i | 0 <= i < |p| - 1 ensures p[1..][i] != '%' {
      assert p[1..][i] == p[i + 1];
    }
  }

  lemma SplitHead(p: string, g: string)
    requires p != []
    ensures p + g == [p[0]] + (p[1..] + g)
    ensures forall x: string {:trigger p + x} :: [p[0]] + (p[1..] + x) == p + x
  {
    assert p == [p[0]] + p[1..];
  }

  /** A directive other than "%%" that is not cut off prints its verb between "%!" and "(MISSING)". */
  lemma MissingOperand(g: string)
    requires g != [] && g[0] == '%' && VerbIndex(g) < |g| && g[VerbIndex(g)] != '%'
    ensures FormatNoArgs(g) == "%!" + [g[VerbIndex(g)]] + "(MISSING)" + FormatNoArgs(g[VerbIndex(g) + 1..])
  {
  }

  /** A reply whose text holds a verb is not reproduced: "100% done" reads as a %d directive with a space flag. */
  lemma PercentTextIsRewritten()
    ensures FormatNoArgs("100% done") == "100" + "%!d(MISSING)" + "one"
  {
    assert "100% done" == "100" + "% done";
    FormatNoArgsPlainPrefix("100", "% done");
    SpaceFlaggedVerb();
  }

  lemma SpaceFlaggedVerb()
    ensures FormatNoArgs("% done") == "%!d(MISSING)" + "one"
  {
    var g := "% done";
    SpaceFlagThenVerb();
    MissingOperand(g);
    assert g[3..] == "one" && [g[2]] == "d";
    assert NoPercent("one");
  }

  lemma SpaceFlagThenVerb()
    ensures VerbIndex("% done") == 2 && "% done"[2] == 'd'
  {
    var g := "% done";
    assert SkipFlags(g, 2) == 2;
    assert SkipFlags(g, 1) == 2;
    assert SkipNumber(g, 2, 0) == 2;
  }

  /** A reply ending in "%." names '.' as its verb: "50%." gives "50%!.(MISSING)". */
  lemma TrailingDotIsVerb()
    ensures FormatNoArgs("%.") == "%!.(MISSING)"
    ensures FormatNoArgs("50%.") == "50" + "%!.(MISSING)"
  {
    var g := "%.";
    assert SkipFlags(g, 1) == 1;
    assert SkipNumber(g, 1, 0) == 1;
    assert VerbIndex(g) == 1 && g[1] == '.' && g[2..] == [];
    MissingOperand(g);
    assert "50%." == "50" + g;
    FormatNoArgsPlainPrefix("50", g);
  }
}
