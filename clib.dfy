/**
 * The C library string routines the tools lean on, as the code uses them:
 * `strtok` with a single delimiter character and the whitespace test
 * `strspn(line, " \t\n\r\v\f") == strlen(line)`.
 */
module CLib {
  import opened Wrappers

  /** Length of the leading part of `s` free of `d` (`strcspn` with one delimiter). */
  function FieldLen(s: string, d: char): (n: nat)
    ensures n <= |s|
  {
    if s == [] || s[0] == d then 0 else 1 + FieldLen(s[1..], d)
  }

  /** The field stops at the first delimiter. */
  lemma {:induction false} FieldLenSpec(s: string, d: char)
    ensures forall k :: 0 <= k < FieldLen(s, d) ==> s[k] != d
    ensures FieldLen(s, d) < |s| ==> s[FieldLen(s, d)] == d
  {
    if s != [] && s[0] != d {
      FieldLenSpec(s[1..], d);
    }
  }

  /** `s` after its leading delimiters, where `strtok` starts looking for a token. */
  function SkipDelims(s: string, d: char): (r: string)
    ensures |r| <= |s|
    ensures r == [] || r[0] != d
  {
    if s != [] && s[0] == d then SkipDelims(s[1..], d) else s
  }

  /**
   * One call of `strtok` on the text `s` still to be scanned: the next token
   * and the text after the delimiter that ended it (the position `strtok`
   * saves for the next call); None (NULL) when only delimiters remain.
   */
  function Strtok(s: string, d: char): (r: Option<(string, string)>)
    ensures r.Some? ==> r.value.0 != [] && |r.value.1| < |s|
  {
    var t := SkipDelims(s, d);
    if t == [] then None
    else
      var n := FieldLen(t, d);
      Some((t[..n], if n < |t| then t[n + 1..] else []))
  }

  /** A field free of the delimiter runs up to the delimiter that follows it. */
  lemma {:induction false} FieldLenAppend(a: string, b: string, d: char)
    requires d !in a
    ensures FieldLen(a + b, d) == |a| + FieldLen(b, d)
  {
    if a != [] {
      assert (a + b)[0] == a[0] && a[0] in a;
      assert (a + b)[1..] == a[1..] + b;
      assert d !in a[1..] by {
        assert forall k :: 0 <= k < |a| - 1 ==> a[1..][k] == a[k + 1];
      }
      FieldLenAppend(a[1..], b, d);
      assert FieldLen(a + b, d) == 1 + FieldLen(a[1..] + b, d);
    } else {
      assert a + b == b;
    }
  }

  /** `strtok` on `a`, a delimiter and `rest` yields `a` and saves `rest`. */
  lemma StrtokDelimited(a: string, d: char, rest: string)
    requires a != [] && d !in a
    ensures Strtok(a + [d] + rest, d) == Some((a, rest))
  {
    var s := a + [d] + rest;
    assert s[0] == a[0];
    FieldLenAppend(a, [d] + rest, d);
    assert s == a + ([d] + rest);
    assert s[..|a|] == a && s[|a| + 1..] == rest;
  }

  /** `strtok` returns a piece of its input: every character it yields was there. */
  lemma {:induction false} StrtokChars(s: string, d: char)
    ensures Strtok(s, d).Some? ==>
      (forall c :: c in Strtok(s, d).value.0 ==> c in s) &&
      (forall c :: c in Strtok(s, d).value.1 ==> c in s)
  {
    SkipDelimsSuffix(s, d);
  }

  lemma {:induction false} SkipDelimsSuffix(s: string, d: char)
    ensures forall c :: c in SkipDelims(s, d) ==> c in s
  {
    if s != [] && s[0] == d {
      SkipDelimsSuffix(s[1..], d);
    }
  }

  /** Every token that repeated `strtok` calls yield, in order. */
  function Tokens(s: string, d: char): seq<string>
    decreases |s|
  {
    var next := Strtok(s, d);
    if next.None? then [] else [next.value.0] + Tokens(next.value.1, d)
  }

  /** The tokens still to come once `strtok` has returned `next`. */
  function Remaining(next: Option<(string, string)>, d: char): seq<string>
  {
    if next.None? then [] else [next.value.0] + Tokens(next.value.1, d)
  }

  /** The fields between delimiters, empty ones included (a reference splitter). */
  function Split(s: string, d: char): (r: seq<string>)
    ensures |r| >= 1
    decreases |s|
  {
    var n := FieldLen(s, d);
    if n == |s| then [s] else [s[..n]] + Split(s[n + 1..], d)
  }

  function NonEmpty(fields: seq<string>): seq<string>
  {
    if fields == [] then []
    else (if fields[0] == [] then [] else [fields[0]]) + NonEmpty(fields[1..])
  }

  /**
   * `strtok` never yields an empty field: consecutive delimiters collapse,
   * so the tokens are the non-empty delimited fields and later fields shift left.
   */
  lemma {:induction false} TokensAreNonEmptyFields(s: string, d: char)
    ensures Tokens(s, d) == NonEmpty(Split(s, d))
    decreases |s|
  {
    if s == [] {
      assert Split(s, d) == [s];
    } else if s[0] == d {
      TokensAreNonEmptyFields(s[1..], d);
      LeadingDelimiter(s, d);
    } else {
      LeadingField(s, d);
      var n := FieldLen(s, d);
      if n < |s| {
        var rest := s[n + 1..];
        TokensAreNonEmptyFields(rest, d);
        assert Tokens(s, d) == [s[..n]] + Tokens(rest, d);
      }
    }
  }

  /** A leading delimiter changes neither the tokens nor the non-empty fields. */
  lemma {:induction false} LeadingDelimiter(s: string, d: char)
    requires s != [] && s[0] == d
    ensures Tokens(s, d) == Tokens(s[1..], d)
    ensures NonEmpty(Split(s, d)) == NonEmpty(Split(s[1..], d))
  {
    assert SkipDelims(s, d) == SkipDelims(s[1..], d);
    assert Strtok(s, d) == Strtok(s[1..], d);
    TokensUnfold(s, d);
    TokensUnfold(s[1..], d);
    SplitUnfold(s, d);
    var rest := Split(s[1..], d);
    assert s[..0] == [];
    assert Split(s, d) == [[]] + rest;
    assert ([[]] + rest)[1..] == rest;
  }

  /** A leading non-empty field is the first token and the first non-empty field. */
  lemma {:induction false} LeadingField(s: string, d: char)
    requires s != [] && s[0] != d
    ensures FieldLen(s, d) == |s| ==> Tokens(s, d) == [s] && NonEmpty(Split(s, d)) == [s]
    ensures FieldLen(s, d) < |s| ==>
      Tokens(s, d) == [s[..FieldLen(s, d)]] + Tokens(s[FieldLen(s, d) + 1..], d) &&
      NonEmpty(Split(s, d)) == [s[..FieldLen(s, d)]] + NonEmpty(Split(s[FieldLen(s, d) + 1..], d))
  {
    var n := FieldLen(s, d);
    assert SkipDelims(s, d) == s;
    TokensUnfold(s, d);
    if n == |s| {
      assert s[..n] == s;
      assert Strtok(s, d) == Some((s, []));
      TokensUnfold([], d);
    } else {
      assert Strtok(s, d) == Some((s[..n], s[n + 1..]));
      SplitUnfold(s, d);
    }
  }

  lemma {:induction false} TokensUnfold(s: string, d: char)
    ensures Strtok(s, d).None? ==> Tokens(s, d) == []
    ensures Strtok(s, d).Some? ==> Tokens(s, d) == [Strtok(s, d).value.0] + Tokens(Strtok(s, d).value.1, d)
  {
  }

  lemma {:induction false} SplitUnfold(s: string, d: char)
    requires FieldLen(s, d) < |s|
    ensures Split(s, d) == [s[..FieldLen(s, d)]] + Split(s[FieldLen(s, d) + 1..], d)
  {
  }

  /** Each token is non-empty and holds no delimiter. */
  lemma {:induction false} TokensShape(s: string, d: char)
    ensures forall t :: t in Tokens(s, d) ==> t != [] && d !in t
    decreases |s|
  {
    var next := Strtok(s, d);
    TokensUnfold(s, d);
    if next.Some? {
      FieldLenSpec(SkipDelims(s, d), d);
      TokensShape(next.value.1, d);
    }
  }

  /** The characters `strspn` skips in the blank-line test. */
  const Whitespace: set<char> := {' ', '\t', '\n', '\r', '\U{000B}', '\U{000C}'}

  /** The line holds whitespace only (or nothing). */
  predicate IsBlank(line: string)
  {
    forall k :: 0 <= k < |line| ==> line[k] in Whitespace
  }
}
