/**
 * StringUtils.unescapeString: replaces the backslash escapes of a string
 * literal's body by the characters they stand for, or fails with the
 * message of the exception the Java code throws.
 */
module StringUtils {
  import opened Common

  /** The escape table: the text that replaces a backslash followed by c. */
  function EscapeFor(c: char): (u: Option<string>)
    ensures u.Some? ==> 1 <= |u.value| <= 2
    ensures u.Some? <==> c in {'b', 't', 'n', 'f', 'r', '"', '\'', '\\'}
  {
    match c
    case 'b' => Some(['\\', 'b'])   // passed through unchanged
    case 't' => Some("\t")
    case 'n' => Some("\n")
    case 'f' => Some(['\U{000C}'])
    case 'r' => Some("\r")
    case '"' => Some("\"")
    case '\'' => Some("'")
    case '\\' => Some("\\")
    case _ => None
  }

  function UnrecognizedMessage(c: char): string {
    "Unrecognized escape sequence \\" + [c]
  }

  const TrailingBackslashMessage: string := "Could not parse escape sequence at end of string literal"

  /** Prefixes p to a successful result and leaves a failure as it is. */
  function Prefixed(p: string, r: Result<string, string>): (q: Result<string, string>)
    ensures q.Ok? <==> r.Ok?
    ensures r.Ok? ==> q.value == p + r.value
    ensures r.Err? ==> q == r
  {
    match r
    case Ok(t) => Ok(p + t)
    case Err(e) => Err(e)
  }

  lemma PrefixedTwice(p: string, u: string, r: Result<string, string>)
    ensures Prefixed(p, Prefixed(u, r)) == Prefixed(p + u, r)
  {
    if r.Ok? {
      assert p + (u + r.value) == (p + u) + r.value;
    }
  }

  lemma PrefixedEmpty(r: Result<string, string>)
    ensures Prefixed([], r) == r
  {
    if r.Ok? {
      assert [] + r.value == r.value;
    }
  }

  /** The meaning of unescapeString, read left to right. */
  function Unescape(s: string): Result<string, string>
    decreases |s|
  {
    if s == [] then Ok([])
    else if s[0] != '\\' then Prefixed([s[0]], Unescape(s[1..]))
    else if |s| == 1 then Err(TrailingBackslashMessage)
    else match EscapeFor(s[1])
      case None => Err(UnrecognizedMessage(s[1]))
      case Some(u) => Prefixed(u, Unescape(s[2..]))
  }

  /** StringUtils.unescapeString: the for loop over i, appending to a buffer. */
  method UnescapeString(s: string) returns (r: Result<string, string>)
    ensures r == Unescape(s)
  {
    var ret: string := [];
    var i := 0;
    assert s[i..] == s;
    PrefixedEmpty(Unescape(s));
    while i < |s|
      invariant 0 <= i <= |s|
      invariant Prefixed(ret, Unescape(s[i..])) == Unescape(s)
    {
      var curr := s[i];
      if curr == '\\' {
        if i < |s| - 1 {
          i := i + 1;
          var next := s[i];
          var unescaped := EscapeFor(next);
          if unescaped.None? {
            return Err(UnrecognizedMessage(next));
          }
          assert s[i - 1..][2..] == s[i + 1..];
          assert Unescape(s[i - 1..]) == Prefixed(unescaped.value, Unescape(s[i + 1..]));
          PrefixedTwice(ret, unescaped.value, Unescape(s[i + 1..]));
          ret := ret + unescaped.value;
        } else {
          return Err(TrailingBackslashMessage);
        }
      } else {
        assert s[i..][1..] == s[i + 1..];
        assert Unescape(s[i..]) == Prefixed([curr], Unescape(s[i + 1..]));
        PrefixedTwice(ret, [curr], Unescape(s[i + 1..]));
        ret := ret + [curr];
      }
      i := i + 1;
    }
    assert s[i..] == [];
    r := Ok(ret);
    assert ret + [] == ret;
  }

  /** A string with no backslash is returned unchanged. */
  lemma {:induction false} NoBackslashUnchanged(s: string)
    requires '\\' !in s
    ensures Unescape(s) == Ok(s)
  {
    if s != [] {
      assert '\\' !in s[1..];
      NoBackslashUnchanged(s[1..]);
      assert [s[0]] + s[1..] == s;
    }
  }

  /** The result is never longer than the input: every table entry is at most two characters. */
  lemma {:induction false} UnescapeNotLonger(s: string)
    ensures Unescape(s).Ok? ==> |Unescape(s).value| <= |s|
  {
    if s == [] {
    } else if s[0] != '\\' {
      UnescapeNotLonger(s[1..]);
    } else if |s| >= 2 && EscapeFor(s[1]).Some? {
      UnescapeNotLonger(s[2..]);
    }
  }

  /** Unescaping is compositional over a prefix that unescapes on its own. */
  lemma {:induction false} UnescapeAppend(p: string, q: string)
    requires Unescape(p).Ok?
    ensures Unescape(p + q) == Prefixed(Unescape(p).value, Unescape(q))
    decreases |p|
  {
    if p == [] {
      assert p + q == q;
      PrefixedEmpty(Unescape(q));
    } else if p[0] != '\\' {
      assert (p + q)[1..] == p[1..] + q;
      UnescapeAppend(p[1..], q);
      PrefixedTwice([p[0]], Unescape(p[1..]).value, Unescape(q));
    } else {
      assert (p + q)[2..] == p[2..] + q;
      UnescapeAppend(p[2..], q);
      PrefixedTwice(EscapeFor(p[1]).value, Unescape(p[2..]).value, Unescape(q));
    }
  }

  /** A recognised escape after a clean prefix is replaced by its table entry. */
  lemma RecognisedEscape(p: string, c: char, q: string)
    requires Unescape(p).Ok? && EscapeFor(c).Some?
    ensures Unescape(p + ['\\', c] + q) == Prefixed(Unescape(p).value + EscapeFor(c).value, Unescape(q))
  {
    UnescapeAppend(p, ['\\', c] + q);
    assert p + ['\\', c] + q == p + (['\\', c] + q);
    assert (['\\', c] + q)[2..] == q;
    PrefixedTwice(Unescape(p).value, EscapeFor(c).value, Unescape(q));
  }

  /** A backslash followed by a character missing from the table is an error. */
  lemma UnrecognisedEscape(p: string, c: char, q: string)
    requires Unescape(p).Ok? && EscapeFor(c).None?
    ensures Unescape(p + ['\\', c] + q) == Err(UnrecognizedMessage(c))
  {
    UnescapeAppend(p, ['\\', c] + q);
    assert p + ['\\', c] + q == p + (['\\', c] + q);
  }

  /** A backslash as the final character is an error. */
  lemma TrailingBackslash(p: string)
    requires Unescape(p).Ok?
    ensures Unescape(p + ['\\']) == Err(TrailingBackslashMessage)
  {
    UnescapeAppend(p, ['\\']);
  }

  /** The character after a backslash never starts another escape, and \b passes through. */
  lemma EscapedBackslashExamples()
    ensures Unescape(['\\', '\\', 'n']) == Ok(['\\', 'n'])
    ensures Unescape(['\\', 'b']) == Ok(['\\', 'b'])
    ensures Unescape(['a', '\\', 't', 'b']) == Ok(['a', '\t', 'b'])
  {
    assert ['\\', '\\', 'n'][2..] == ['n'];
    assert ['n'][1..] == [];
    assert Unescape([]) == Ok([]);
    assert ['n'] + [] == ['n'];
    assert Unescape(['n']) == Ok(['n']);
    assert EscapeFor('\\') == Some(['\\']);
    assert ['\\'] + ['n'] == ['\\', 'n'];
    assert ['\\', 'b'][2..] == [];
    assert ['\\', 'b'] + [] == ['\\', 'b'];
    assert ['a', '\\', 't', 'b'][1..] == ['\\', 't', 'b'];
    assert ['\\', 't', 'b'][2..] == ['b'];
    assert ['b'][1..] == [];
    assert ['b'] + [] == ['b'];
    assert Unescape(['b']) == Ok(['b']);
    assert EscapeFor('t') == Some(['\t']);
    assert ['\t'] + ['b'] == ['\t', 'b'];
    assert Unescape(['\\', 't', 'b']) == Ok(['\t', 'b']);
    assert ['a'] + ['\t', 'b'] == ['a', '\t', 'b'];
  }
}
