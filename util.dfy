/**
 * Util: a second copy of the escape table and of unescapeString, the display
 * form of values (stringify) and the integer test the increment operators
 * use. Double.toString is not modelled; the text it gives a number is a
 * parameter of stringify.
 */
module Util {
  import opened Common
  import opened Syntax
  import opened Runtime
  import StringUtils

  /** Util's own escape table. */
  function EscapeSequence(c: char): (u: Option<string>)
    ensures u.Some? <==> c in {'b', 't', 'n', 'f', 'r', '"', '\'', '\\'}
  {
    if c == 'b' then Some(['\\', 'b'])
    else if c == 't' then Some("\t")
    else if c == 'n' then Some("\n")
    else if c == 'f' then Some(['\U{000C}'])
    else if c == 'r' then Some("\r")
    else if c == '"' then Some("\"")
    else if c == '\'' then Some("'")
    else if c == '\\' then Some("\\")
    else None
  }

  /** The two tables hold the same entries. */
  lemma TablesAgree(c: char)
    ensures EscapeSequence(c) == StringUtils.EscapeFor(c)
  {
  }

  /**
   * Util.unescapeString: the same loop over Util's own table, which therefore
   * agrees with StringUtils.unescapeString on every input, failures included.
   */
  method UnescapeString(s: string) returns (r: Result<string, string>)
    ensures r == StringUtils.Unescape(s)
  {
    var ret: string := [];
    var i := 0;
    assert s[i..] == s;
    StringUtils.PrefixedEmpty(StringUtils.Unescape(s));
    while i < |s|
      invariant 0 <= i <= |s|
      invariant StringUtils.Prefixed(ret, StringUtils.Unescape(s[i..])) == StringUtils.Unescape(s)
    {
      var curr := s[i];
      if curr == '\\' {
        if i < |s| - 1 {
          i := i + 1;
          var next := s[i];
          var unescaped := EscapeSequence(next);
          TablesAgree(next);
          if unescaped.None? {
            return Err(StringUtils.UnrecognizedMessage(next));
          }
          assert s[i - 1..][2..] == s[i + 1..];
          assert StringUtils.Unescape(s[i - 1..]) ==
            StringUtils.Prefixed(unescaped.value, StringUtils.Unescape(s[i + 1..]));
          StringUtils.PrefixedTwice(ret, unescaped.value, StringUtils.Unescape(s[i + 1..]));
          ret := ret + unescaped.value;
        } else {
          return Err(StringUtils.TrailingBackslashMessage);
        }
      } else {
        assert s[i..][1..] == s[i + 1..];
        assert StringUtils.Unescape(s[i..]) == StringUtils.Prefixed([curr], StringUtils.Unescape(s[i + 1..]));
        StringUtils.PrefixedTwice(ret, [curr], StringUtils.Unescape(s[i + 1..]));
        ret := ret + [curr];
      }
      i := i + 1;
    }
    assert s[i..] == [];
    r := Ok(ret);
    assert ret + [] == ret;
  }

  // ---------------------------------------------------------------------------
  // stringify

  predicate EndsWith(text: string, suffix: string) {
    |suffix| <= |text| && text[|text| - |suffix|..] == suffix
  }

  /** Object.toString of a value other than a number; null has none. */
  function ToString(v: Value): (r: Option<string>)
    requires !v.Num?
    ensures r.None? <==> v.Nil?
  {
    match v
    case Nil => None
    case Bool(b) => Some(if b then "true" else "false")
    case Str(s) => Some(s)
    case Function(f) => Some("<fn " + f.name.lexeme + ">")
  }

  /**
   * stringify(value): "nil" for null, a number's text without a trailing
   * ".0", and toString() for anything else. numberText is Double.toString.
   */
  function Stringify(v: Value, numberText: real -> string): string {
    match v
    case Nil => "nil"
    case Num(n) =>
      var text := numberText(n);
      if EndsWith(text, ".0") then text[..|text| - 2] else text
    case _ => ToString(v).value
  }

  lemma StringifyNil(numberText: real -> string)
    ensures Stringify(Nil, numberText) == "nil"
  {
  }

  /**
   * A number's display form is its text with a trailing ".0" removed: the
   * text is the display form followed by ".0" exactly when it ends so, and is
   * the display form itself otherwise.
   */
  lemma StringifyNumber(n: real, numberText: real -> string)
    ensures var text := numberText(n);
      var shown := Stringify(Num(n), numberText);
      (EndsWith(text, ".0") ==> text == shown + ".0") &&
      (!EndsWith(text, ".0") ==> shown == text)
  {
    var text := numberText(n);
    if EndsWith(text, ".0") {
      assert text == text[..|text| - 2] + text[|text| - 2..];
    }
  }

  /** Every other value shows its toString() and does not depend on the number format. */
  lemma StringifyOther(v: Value, numberText: real -> string, otherText: real -> string)
    requires !v.Nil? && !v.Num?
    ensures Stringify(v, numberText) == ToString(v).value == Stringify(v, otherText)
  {
  }

  /**
   * isInteger: Math.rint(n) == n and n is finite. A real is always finite and
   * is its own nearest integer exactly when it has no fractional part.
   */
  predicate IsInteger(n: real) {
    n.Floor as real == n
  }

  /** Every whole number passes the test. */
  lemma WholeIsInteger(k: int)
    ensures IsInteger(k as real)
  {
  }

  /** A number that fails the test lies strictly between two consecutive whole numbers. */
  lemma FractionIsNotInteger(n: real)
    ensures !IsInteger(n) <==> n.Floor as real < n < n.Floor as real + 1.0
  {
  }
}
