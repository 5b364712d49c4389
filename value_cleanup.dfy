/**
 * The two in-place string helpers of the YAML aggregation tool
 * (a3/route_manager.c): `removeWhitespace`, which shifts a NUL-terminated
 * character buffer one place to the left, and the clean-up that the
 * question-two handler applies to a destination-country value (drop the
 * indentation character, a leading quote with the character after it, and
 * a trailing quote together with the spaces before it).
 */
module ValueCleanup {

  const NUL: char := '\0'

  /** A buffer that holds a C string: some position carries the terminator. */
  predicate Terminated(s: seq<char>)
  {
    NUL in s
  }

  /** `strlen`: the position of the first terminator. */
  function CStrLen(s: seq<char>): (n: nat)
    requires Terminated(s)
    ensures n < |s| && s[n] == NUL && NUL !in s[..n]
  {
    if s[0] == NUL then 0
    else
      assert s == [s[0]] + s[1..];
      1 + CStrLen(s[1..])
  }

  /** The C string a buffer holds. */
  function CStr(s: seq<char>): (r: string)
    requires Terminated(s)
    ensures NUL !in r && |r| < |s|
  {
    s[..CStrLen(s)]
  }

  /** A buffer whose string is `t`, after which the buffer content is arbitrary. */
  lemma CStrOf(s: seq<char>, t: string)
    requires |t| < |s| && s[..|t|] == t && s[|t|] == NUL && NUL !in t
    ensures Terminated(s) && CStr(s) == t
  {
    assert s[|t|] in s;
    var n := CStrLen(s);
    assert forall i :: 0 <= i < |t| ==> s[i] == t[i];
    assert forall k :: 0 <= k < n ==> s[k] == s[..n][k];
  }

  // ---------------------------------------------------------------------
  // removeWhitespace
  // ---------------------------------------------------------------------

  /**
   * The buffer after `removeWhitespace`: the characters after the first
   * moved one place left, a terminator where the last one was, and the rest
   * of the buffer as it was.
   */
  function ShiftedLeft(s: seq<char>): (r: seq<char>)
    requires Terminated(s) && CStrLen(s) >= 1
  {
    var n := CStrLen(s);
    s[1..n] + [NUL] + s[n..]
  }

  /** `removeWhitespace` drops exactly the first character of a non-empty string. */
  lemma ShiftedLeftDropsFirst(s: seq<char>)
    requires Terminated(s) && CStrLen(s) >= 1
    ensures |ShiftedLeft(s)| == |s|
    ensures Terminated(ShiftedLeft(s)) && CStr(ShiftedLeft(s)) == CStr(s)[1..]
    ensures CStrLen(ShiftedLeft(s)) == CStrLen(s) - 1
  {
    var n := CStrLen(s);
    var r := ShiftedLeft(s);
    assert r[..n - 1] == s[1..n];
    assert s[..n][1..] == s[1..n];
    CStrOf(r, s[1..n]);
  }

  /** `removeWhitespace(value)`: shift every character after the first one place left. */
  method RemoveWhitespace(value: array<char>)
    requires Terminated(value[..]) && CStrLen(value[..]) >= 1
    modifies value
    ensures value[..] == ShiftedLeft(old(value[..]))
  {
    ghost var s := value[..];
    ghost var n := CStrLen(s);
    assert forall k :: 0 <= k < n ==> s[k] == s[..n][k];
    var i, j := 1, 0;
    while value[i] != NUL
      invariant 1 <= i <= n && j == i - 1
      invariant forall k :: 0 <= k < j ==> value[k] == s[k + 1]
      invariant forall k :: j <= k < value.Length ==> value[k] == s[k]
      decreases n - i
    {
      value[j] := value[i];
      i, j := i + 1, j + 1;
    }
    value[j] := NUL;
    ghost var r := ShiftedLeft(s);
    assert forall k :: 0 <= k < value.Length ==> value[k] == r[k];
  }

  // ---------------------------------------------------------------------
  // Country values in the question-two handler
  // ---------------------------------------------------------------------

  /** The string up to its last character that is not a space. */
  function TrimTrailingSpaces(s: string): (r: string)
    ensures |r| <= |s| && r == s[..|r|]
    ensures r == [] || r[|r| - 1] != ' '
    ensures forall k :: |r| <= k < |s| ==> s[k] == ' '
  {
    if s != [] && s[|s| - 1] == ' ' then TrimTrailingSpaces(s[..|s| - 1]) else s
  }

  /**
   * The raw values the handler can clean without reading outside the string:
   * one indentation character and at least one character after it, and two
   * more after a leading quote.
   */
  predicate Cleanable(v: string)
  {
    |v| >= 2 && (v[1] == '\'' ==> |v| >= 4)
  }

  /** A leading quote goes together with the character after it. */
  function WithoutLeadingQuote(v: string): (r: string)
    requires |v| >= 1 && (v[0] == '\'' ==> |v| >= 2)
  {
    if v[0] == '\'' then v[2..] else v
  }

  /** A trailing quote goes together with every space before it. */
  function WithoutTrailingQuote(v: string): (r: string)
    requires |v| >= 1
  {
    if v[|v| - 1] == '\'' then TrimTrailingSpaces(v[..|v| - 1]) else v
  }

  /**
   * The country the handler stores for the raw value `v`: the indentation
   * character goes; a leading quote goes with the character after it; a
   * trailing quote goes with every space before it.
   */
  function CountryValue(v: string): (r: string)
    requires Cleanable(v)
  {
    WithoutTrailingQuote(WithoutLeadingQuote(v[1..]))
  }

  /** A value without quotes keeps everything after the indentation character. */
  lemma PlainCountry(s: string)
    requires s != [] && s[0] != '\'' && s[|s| - 1] != '\''
    ensures Cleanable([' '] + s) && CountryValue([' '] + s) == s
  {
    assert ([' '] + s)[1..] == s;
  }

  /**
   * A quoted value `'<c><s>'` becomes `s` without its trailing spaces: the
   * quotes go, and so does the one character after the opening quote.
   */
  lemma QuotedCountry(c: char, s: string)
    ensures Cleanable([' ', '\'', c] + s + ['\''])
    ensures CountryValue([' ', '\'', c] + s + ['\'']) == TrimTrailingSpaces(s)
  {
    var v := [' ', '\'', c] + s + ['\''];
    assert v[1..][2..] == s + ['\''];
    assert (s + ['\''])[..|s|] == s;
  }

  /**
   * The question-two clean-up of a `to_airport_country` value, in place:
   * `removeWhitespace`, then the leading-quote and the trailing-quote steps.
   */
  method CleanCountry(value: array<char>)
    requires Terminated(value[..]) && Cleanable(CStr(value[..]))
    modifies value
    ensures Terminated(value[..]) && CStr(value[..]) == CountryValue(old(CStr(value[..])))
  {
    ghost var v := CStr(value[..]);
    ShiftedLeftDropsFirst(value[..]);
    RemoveWhitespace(value);
    DropLeadingQuote(value);
    DropTrailingQuote(value);
  }

  /** On a leading quote: overwrite it with a space and `removeWhitespace` twice. */
  method DropLeadingQuote(value: array<char>)
    requires Terminated(value[..])
    requires var v := CStr(value[..]); |v| >= 1 && (v[0] == '\'' ==> |v| >= 3)
    modifies value
    ensures Terminated(value[..]) && CStr(value[..]) == WithoutLeadingQuote(old(CStr(value[..])))
    ensures |CStr(value[..])| >= 1
  {
    ghost var v := CStr(value[..]);
    assert value[0] == v[0];
    if value[0] == '\'' {
      value[0] := ' ';
      CStrOf(value[..], [' '] + v[1..]);
      ShiftedLeftDropsFirst(value[..]);
      RemoveWhitespace(value);
      ShiftedLeftDropsFirst(value[..]);
      RemoveWhitespace(value);
    }
  }

  /**
   * On a trailing quote: overwrite it with a space, walk back over the
   * spaces and end the string after the last character that is not one.
   */
  method DropTrailingQuote(value: array<char>)
    requires Terminated(value[..]) && |CStr(value[..])| >= 1
    modifies value
    ensures Terminated(value[..]) && CStr(value[..]) == WithoutTrailingQuote(old(CStr(value[..])))
  {
    ghost var v := CStr(value[..]);
    var len := CStrLen(value[..]);
    assert value[..len] == v;
    if value[len - 1] == '\'' {
      value[len - 1] := ' ';
      assert value[..len] == v[..len - 1] + [' '];
      assert value[..len][..len - 1] == v[..len - 1];
      var i := LastNonSpace(value, len - 1);
      ghost var kept := value[..i + 1];
      assert kept == v[..len - 1][..i + 1];
      value[i + 1] := NUL;
      CStrOf(value[..], kept);
    }
  }

  /** The walk back over the spaces: the position of the last character that is not one, or -1. */
  method LastNonSpace(value: array<char>, last: int) returns (i: int)
    requires -1 <= last < value.Length
    ensures -1 <= i <= last && value[..i + 1] == TrimTrailingSpaces(value[..last + 1])
  {
    i := last;
    while i >= 0 && value[i] == ' '
      invariant -1 <= i <= last
      invariant TrimTrailingSpaces(value[..i + 1]) == TrimTrailingSpaces(value[..last + 1])
      decreases i
    {
      assert value[..i + 1][..i] == value[..i];
      i := i - 1;
    }
  }
}
