/**
 * The CSV filter tool (a1/route_manager.c): every input line is split into
 * positional fields by `strtok(line, ",")`, kept when two, three or four
 * fixed positions equal the values given on the command line, and written
 * to the report as one formatted line, after a context header that appears
 * once before the first match; a report without matches is the single line
 * `NO RESULTS FOUND.`.
 *
 * Field positions (after `strtok` has collapsed empty fields):
 * 0 airline name, 1 airline code, 3 origin airport, 4 origin city,
 * 5 origin country, 6 origin code, 8 destination airport,
 * 9 destination city, 10 destination country, 11 destination code.
 */
module FilterEngine {
  import opened Wrappers
  import opened CLib

  /** The values given on the command line, one shape per filter function. */
  datatype Query =
    | ByAirline(airline: string, toCountry: string)                                    // two_arguments
    | ByDestination(fromCountry: string, toCity: string, toCountry: string)             // three_arguments
    | ByRoute(fromCity: string, fromCountry: string, toCity: string, toCountry: string) // four_arguments

  const NoResults: string := "NO RESULTS FOUND."

  /** Rows of the per-line buffer `char routes[14][256]`. */
  const FieldSlots: nat := 14

  /**
   * A line the filter functions are defined on: `strtok` gives every
   * position up to 11 that they read, and no more fields than `routes` holds.
   */
  predicate WellFormedLine(line: string)
  {
    12 <= |Tokens(line, ',')| <= FieldSlots
  }

  predicate AllWellFormed(lines: seq<string>)
  {
    forall i :: 0 <= i < |lines| ==> WellFormedLine(lines[i])
  }

  /** The line's fields equal every value of the query (exact, case-sensitive `strcmp`). */
  predicate Keep(q: Query, f: seq<string>)
    requires |f| >= 12
  {
    match q
    case ByAirline(airline, toCountry) =>
      f[1] == airline && f[10] == toCountry
    case ByDestination(fromCountry, toCity, toCountry) =>
      f[5] == fromCountry && f[9] == toCity && f[10] == toCountry
    case ByRoute(fromCity, fromCountry, toCity, toCountry) =>
      f[4] == fromCity && f[5] == fromCountry && f[9] == toCity && f[10] == toCountry
  }

  /** The context header; the two-value form names the airline of the first match. */
  function Header(q: Query, first: seq<string>): string
    requires |first| >= 12
  {
    "FLIGHTS " +
    match q
    case ByAirline(airline, toCountry) =>
      "TO " + toCountry + " BY " + first[0] + " (" + airline + "):"
    case ByDestination(fromCountry, toCity, toCountry) =>
      "FROM " + fromCountry + " TO " + toCity + ", " + toCountry + ":"
    case ByRoute(fromCity, fromCountry, toCity, toCountry) =>
      "FROM " + fromCity + ", " + fromCountry + " TO " + toCity + ", " + toCountry + ":"
  }

  /** The report line for one matching input line. */
  function MatchLine(q: Query, f: seq<string>): string
    requires |f| >= 12
  {
    match q
    case ByAirline(_, _) =>
      "FROM: " + (f[6] + ", " + f[4] + ", " + f[5] + " TO: " + f[8] + " (" + f[11] + "), " + f[9])
    case ByDestination(_, _, _) =>
      "AIRLINE: " + (f[0] + " (" + f[1] + ") ORIGIN: " + f[3] + " (" + f[6] + "), " + f[4])
    case ByRoute(_, _, _, _) =>
      "AIRLINE: " + (f[0] + " (" + f[1] + ") ROUTE: " + f[6] + "-" + f[11])
  }

  /** Field lists with every position the filters read. */
  predicate Wide(rows: seq<seq<string>>)
  {
    forall k :: 0 <= k < |rows| ==> |rows[k]| >= 12
  }

  /** The `strtok` field list of every line. */
  function Fields(lines: seq<string>): (rows: seq<seq<string>>)
    requires AllWellFormed(lines)
    ensures |rows| == |lines| && Wide(rows)
    ensures forall i :: 0 <= i < |lines| ==> rows[i] == Tokens(lines[i], ',')
  {
    seq(|lines|, i requires 0 <= i < |lines| => Tokens(lines[i], ','))
  }

  /** The field lists that satisfy the query, in input order. */
  function Select(q: Query, rows: seq<seq<string>>): (ms: seq<seq<string>>)
    requires Wide(rows)
    ensures Wide(ms)
  {
    if rows == [] then []
    else
      var f := rows[|rows| - 1];
      Select(q, rows[..|rows| - 1]) + (if Keep(q, f) then [f] else [])
  }

  /** The positions of the field lists that satisfy the query, in input order. */
  function KeptIndices(q: Query, rows: seq<seq<string>>): seq<nat>
    requires Wide(rows)
  {
    if rows == [] then []
    else
      var i := |rows| - 1;
      KeptIndices(q, rows[..i]) + (if Keep(q, rows[i]) then [i] else [])
  }

  /** The fields of the kept lines, in input order. */
  function Matches(q: Query, lines: seq<string>): (ms: seq<seq<string>>)
    requires AllWellFormed(lines)
    ensures Wide(ms)
  {
    Select(q, Fields(lines))
  }

  function MatchLines(q: Query, ms: seq<seq<string>>): seq<string>
    requires forall k :: 0 <= k < |ms| ==> |ms[k]| >= 12
  {
    if ms == [] then [] else MatchLines(q, ms[..|ms| - 1]) + [MatchLine(q, ms[|ms| - 1])]
  }

  /** What has been written once the matches `ms` have been seen. */
  function Listing(q: Query, ms: seq<seq<string>>): seq<string>
    requires forall k :: 0 <= k < |ms| ==> |ms[k]| >= 12
  {
    if ms == [] then [] else [Header(q, ms[0])] + MatchLines(q, ms)
  }

  /** The whole content of output.txt for the input lines. */
  function Report(q: Query, lines: seq<string>): seq<string>
    requires AllWellFormed(lines)
  {
    var ms := Matches(q, lines);
    if ms == [] then [NoResults] else Listing(q, ms)
  }

  lemma SelectSnoc(q: Query, rows: seq<seq<string>>, i: nat)
    requires i < |rows| && Wide(rows)
    ensures Select(q, rows[..i + 1]) == Select(q, rows[..i]) + (if Keep(q, rows[i]) then [rows[i]] else [])
    ensures KeptIndices(q, rows[..i + 1]) == KeptIndices(q, rows[..i]) + (if Keep(q, rows[i]) then [i] else [])
  {
    assert rows[..i + 1][..i] == rows[..i];
  }

  lemma {:induction false} KeptIndicesIncreasing(q: Query, rows: seq<seq<string>>)
    requires Wide(rows)
    ensures var idx := KeptIndices(q, rows);
      && (forall k :: 0 <= k < |idx| ==> idx[k] < |rows|)
      && (forall k, m :: 0 <= k < m < |idx| ==> idx[k] < idx[m])
  {
    if rows != [] {
      var n := |rows| - 1;
      SelectSnoc(q, rows, n);
      assert rows[..n + 1] == rows;
      KeptIndicesIncreasing(q, rows[..n]);
    }
  }

  lemma {:induction false} KeptIndicesExact(q: Query, rows: seq<seq<string>>)
    requires Wide(rows)
    ensures forall i :: 0 <= i < |rows| ==> (i in KeptIndices(q, rows) <==> Keep(q, rows[i]))
  {
    if rows != [] {
      var n := |rows| - 1;
      var front := rows[..n];
      var before := KeptIndices(q, front);
      SelectSnoc(q, rows, n);
      assert rows[..n + 1] == rows;
      KeptIndicesIncreasing(q, front);
      KeptIndicesExact(q, front);
      forall x | x in before
        ensures x < n
      {
        var k :| 0 <= k < |before| && before[k] == x;
      }
      forall i | 0 <= i < n
        ensures i in KeptIndices(q, rows) <==> Keep(q, rows[i])
      {
        assert front[i] == rows[i];
      }
    }
  }

  /** The k-th selected field list is the one at the k-th kept position. */
  lemma {:induction false} SelectAtKeptIndices(q: Query, rows: seq<seq<string>>)
    requires Wide(rows)
    ensures var idx := KeptIndices(q, rows);
      && |idx| == |Select(q, rows)|
      && (forall k :: 0 <= k < |idx| ==> idx[k] < |rows| && Select(q, rows)[k] == rows[idx[k]])
  {
    if rows != [] {
      var n := |rows| - 1;
      SelectSnoc(q, rows, n);
      assert rows[..n + 1] == rows;
      SelectAtKeptIndices(q, rows[..n]);
    }
  }

  /**
   * Soundness, completeness and order: the matches are exactly the lines whose
   * fields satisfy the query, taken at strictly increasing positions.
   */
  lemma MatchesAreKeptLines(q: Query, lines: seq<string>)
    requires AllWellFormed(lines)
    ensures var idx := KeptIndices(q, Fields(lines));
      && |idx| == |Matches(q, lines)|
      && (forall k :: 0 <= k < |idx| ==> idx[k] < |lines| && Matches(q, lines)[k] == Tokens(lines[idx[k]], ','))
      && (forall k, m :: 0 <= k < m < |idx| ==> idx[k] < idx[m])
      && (forall i :: 0 <= i < |lines| ==> (i in idx <==> Keep(q, Tokens(lines[i], ','))))
  {
    var rows := Fields(lines);
    KeptIndicesIncreasing(q, rows);
    KeptIndicesExact(q, rows);
    SelectAtKeptIndices(q, rows);
  }

  /** Every match satisfies the query, by the field positions its shape compares. */
  lemma MatchesSatisfyQuery(q: Query, lines: seq<string>)
    requires AllWellFormed(lines)
    ensures forall f :: f in Matches(q, lines) ==> |f| >= 12 && Keep(q, f)
    ensures q.ByAirline? ==> forall f :: f in Matches(q, lines) ==>
      f[1] == q.airline && f[10] == q.toCountry
    ensures q.ByDestination? ==> forall f :: f in Matches(q, lines) ==>
      f[5] == q.fromCountry && f[9] == q.toCity && f[10] == q.toCountry
    ensures q.ByRoute? ==> forall f :: f in Matches(q, lines) ==>
      f[4] == q.fromCity && f[5] == q.fromCountry && f[9] == q.toCity && f[10] == q.toCountry
  {
    MatchesAreKeptLines(q, lines);
    var idx := KeptIndices(q, Fields(lines));
    forall f | f in Matches(q, lines)
      ensures |f| >= 12 && Keep(q, f)
    {
      var k :| 0 <= k < |Matches(q, lines)| && Matches(q, lines)[k] == f;
      assert idx[k] in idx;
    }
  }

  lemma {:induction false} MatchLinesAt(q: Query, ms: seq<seq<string>>)
    requires forall k :: 0 <= k < |ms| ==> |ms[k]| >= 12
    ensures |MatchLines(q, ms)| == |ms|
    ensures forall k :: 0 <= k < |ms| ==> MatchLines(q, ms)[k] == MatchLine(q, ms[k])
  {
    if ms != [] {
      MatchLinesAt(q, ms[..|ms| - 1]);
    }
  }

  /** A header line is recognised by its leading word. */
  predicate IsHeader(line: string)
  {
    |line| >= 8 && line[..8] == "FLIGHTS "
  }

  lemma HeaderShape(q: Query, f: seq<string>)
    requires |f| >= 12
    ensures IsHeader(Header(q, f)) && Header(q, f) != NoResults
  {
    assert Header(q, f)[1] == 'L' != NoResults[1];
  }

  lemma MatchLineShape(q: Query, f: seq<string>)
    requires |f| >= 12
    ensures !IsHeader(MatchLine(q, f)) && MatchLine(q, f) != NoResults
  {
    var l := MatchLine(q, f);
    if q.ByAirline? {
      assert l[1] == 'R';
    } else {
      assert l[0] == 'A';
    }
  }

  /** A listing is one header followed by one line per match. */
  lemma ListingLayout(q: Query, ms: seq<seq<string>>)
    requires forall k :: 0 <= k < |ms| ==> |ms[k]| >= 12
    requires ms != []
    ensures var r := Listing(q, ms);
      && |r| == |ms| + 1 && r[0] == Header(q, ms[0])
      && (forall k :: 0 <= k < |ms| ==> r[k + 1] == MatchLine(q, ms[k]))
  {
    var m := MatchLines(q, ms);
    MatchLinesAt(q, ms);
    assert Listing(q, ms) == [Header(q, ms[0])] + m;
    forall k | 0 <= k < |ms|
      ensures Listing(q, ms)[k + 1] == MatchLine(q, ms[k])
    {
      assert Listing(q, ms)[k + 1] == m[k];
    }
  }

  /** In a header-then-match-lines layout only the first line is a header, and none is the no-results line. */
  lemma LayoutClassified(q: Query, ms: seq<seq<string>>, r: seq<string>)
    requires forall k :: 0 <= k < |ms| ==> |ms[k]| >= 12
    requires ms != [] && |r| == |ms| + 1 && r[0] == Header(q, ms[0])
    requires forall k :: 0 <= k < |ms| ==> r[k + 1] == MatchLine(q, ms[k])
    ensures forall k :: 0 <= k < |r| ==> (IsHeader(r[k]) <==> k == 0)
    ensures forall k :: 0 <= k < |r| ==> r[k] != NoResults
  {
    HeaderShape(q, ms[0]);
    forall k | 1 <= k < |r|
      ensures !IsHeader(r[k]) && r[k] != NoResults
    {
      assert r[k] == MatchLine(q, ms[k - 1]);
      MatchLineShape(q, ms[k - 1]);
    }
  }

  /** The layout of the report written for the matches `ms`. */
  lemma ReportLayout(q: Query, ms: seq<seq<string>>, r: seq<string>)
    requires forall k :: 0 <= k < |ms| ==> |ms[k]| >= 12
    requires r == if ms == [] then [NoResults] else Listing(q, ms)
    ensures |r| == |ms| + 1
    ensures ms == [] <==> r == [NoResults]
    ensures ms != [] ==> r[0] == Header(q, ms[0])
    ensures forall k :: 0 <= k < |ms| ==> r[k + 1] == MatchLine(q, ms[k])
    ensures forall k :: 0 <= k < |r| ==> (IsHeader(r[k]) <==> k == 0 && ms != [])
    ensures forall k :: 0 <= k < |r| ==> (r[k] == NoResults <==> ms == [])
  {
    if ms == [] {
      assert !IsHeader(NoResults) by { assert NoResults[1] == 'O'; }
    } else {
      ListingLayout(q, ms);
      LayoutClassified(q, ms, r);
    }
  }

  /**
   * The report has one line per match, in match order, after exactly one
   * header; `NO RESULTS FOUND.` is written iff nothing matched, and then it
   * is the only line.
   */
  lemma ReportShape(q: Query, lines: seq<string>)
    requires AllWellFormed(lines)
    ensures var r, ms := Report(q, lines), Matches(q, lines);
      && |r| == |ms| + 1
      && (ms == [] <==> r == [NoResults])
      && (ms != [] ==> r[0] == Header(q, ms[0]))
      && (forall k :: 0 <= k < |ms| ==> r[k + 1] == MatchLine(q, ms[k]))
      && (forall k :: 0 <= k < |r| ==> (IsHeader(r[k]) <==> k == 0 && ms != []))
      && (forall k :: 0 <= k < |r| ==> (r[k] == NoResults <==> ms == []))
  {
    ReportLayout(q, Matches(q, lines), Report(q, lines));
  }

  lemma ListingSnoc(q: Query, ms: seq<seq<string>>, f: seq<string>)
    requires forall k :: 0 <= k < |ms| ==> |ms[k]| >= 12
    requires |f| >= 12
    ensures Listing(q, ms + [f]) ==
      (if ms == [] then [Header(q, f)] else []) + Listing(q, ms) + [MatchLine(q, f)]
  {
    MatchLinesSnoc(q, ms, f);
    assert (ms + [f])[0] == if ms == [] then f else ms[0];
  }

  lemma MatchLinesSnoc(q: Query, ms: seq<seq<string>>, f: seq<string>)
    requires forall k :: 0 <= k < |ms| ==> |ms[k]| >= 12
    requires |f| >= 12
    ensures MatchLines(q, ms + [f]) == MatchLines(q, ms) + [MatchLine(q, f)]
  {
    var all := ms + [f];
    assert all[..|all| - 1] == ms && all[|all| - 1] == f;
  }

  /** The token loop: `strtok` results copied into consecutive rows of `routes`. */
  method FillRoutes(line: string, routes: array<string>) returns (counter: nat)
    requires |Tokens(line, ',')| <= routes.Length
    modifies routes
    ensures counter <= routes.Length
    ensures routes[..counter] == Tokens(line, ',')
  {
    ghost var all := Tokens(line, ',');
    counter := 0;
    var next := Strtok(line, ',');
    TokensUnfold(line, ',');
    while next.Some?
      invariant counter <= |all|
      invariant Remaining(next, ',') == all[counter..]
      invariant forall k :: 0 <= k < counter ==> routes[k] == all[k]
      decreases |all| - counter
    {
      var token, rest := next.value.0, next.value.1;
      assert all[counter + 1..] == all[counter..][1..] == Tokens(rest, ',');
      routes[counter] := token;
      counter := counter + 1;
      next := Strtok(rest, ',');
      TokensUnfold(rest, ',');
    }
    assert routes[..counter] == all;
  }

  /**
   * One pass of the line loop: tokenise `line` into a fresh 14-slot array and,
   * when it satisfies the query, write the header (once) and its match line.
   */
  method ScanLine(q: Query, line: string, ghost ms: seq<seq<string>>, out: seq<string>, headerWritten: bool)
    returns (out': seq<string>, headerWritten': bool, kept: bool)
    requires WellFormedLine(line)
    requires forall k :: 0 <= k < |ms| ==> |ms[k]| >= 12
    requires out == Listing(q, ms) && headerWritten == (ms != [])
    ensures kept == Keep(q, Tokens(line, ','))
    ensures kept ==> out' == Listing(q, ms + [Tokens(line, ',')]) && headerWritten'
    ensures !kept ==> out' == out && headerWritten' == headerWritten
  {
    var routes := new string[FieldSlots];
    var counter := FillRoutes(line, routes);
    var fields := routes[..counter];
    out', headerWritten', kept := out, headerWritten, false;
    if Keep(q, fields) {
      ListingSnoc(q, ms, fields);
      if !headerWritten {
        out' := out' + [Header(q, fields)];
        headerWritten' := true;
      }
      out' := out' + [MatchLine(q, fields)];
      kept := true;
    }
  }

  /**
   * The two-, three- and four-value filters: every well-formed line is
   * matched against the query and output.txt receives the header and match
   * lines, or the no-results line. Without an input file the two-value
   * filter leaves output.txt empty.
   */
  method RunQuery(q: Query, input: Option<seq<string>>) returns (out: seq<string>)
    requires input.None? ==> q.ByAirline?
    requires input.Some? ==> AllWellFormed(input.value)
    ensures input.None? ==> out == []
    ensures input.Some? ==> out == Report(q, input.value)
  {
    if input.None? {
      return [];
    }
    var lines := input.value;
    var test := false;
    var headerWritten := false;
    out := [];
    ghost var ms: seq<seq<string>> := [];
    var i := 0;
    while i < |lines|
      invariant 0 <= i <= |lines|
      invariant ms == Select(q, Fields(lines)[..i])
      invariant test == headerWritten == (ms != [])
      invariant out == Listing(q, ms)
    {
      var kept;
      SelectStep(q, lines, i);
      out, headerWritten, kept := ScanLine(q, lines[i], ms, out, headerWritten);
      if kept {
        test := true;
        ms := ms + [Tokens(lines[i], ',')];
      }
      i := i + 1;
    }
    ReportOf(q, lines, ms);
    if !test {
      out := out + [NoResults];
    }
  }

  /** The matches after one more line: its fields join them when they satisfy the query. */
  lemma SelectStep(q: Query, lines: seq<string>, i: nat)
    requires AllWellFormed(lines) && i < |lines|
    ensures var f := Tokens(lines[i], ',');
      Select(q, Fields(lines)[..i + 1]) == Select(q, Fields(lines)[..i]) + (if Keep(q, f) then [f] else [])
  {
    SelectSnoc(q, Fields(lines), i);
  }

  lemma ReportOf(q: Query, lines: seq<string>, ms: seq<seq<string>>)
    requires AllWellFormed(lines)
    requires ms == Select(q, Fields(lines)[..|lines|])
    ensures Report(q, lines) == if ms == [] then [NoResults] else Listing(q, ms)
  {
    assert Fields(lines)[..|lines|] == Fields(lines);
  }

  /** The filter `main` runs for an argument count, over the parsed values argv[2..]. */
  function QueryOf(argc: int, values: seq<string>): (r: Option<Query>)
    requires |values| == argc - 2
    ensures r.Some? <==> 4 <= argc <= 6
    ensures r.Some? ==> (argc == 4 <==> r.value.ByAirline?) && (argc == 5 <==> r.value.ByDestination?)
  {
    if argc == 4 then Some(ByAirline(values[0], values[1]))
    else if argc == 5 then Some(ByDestination(values[0], values[1], values[2]))
    else if argc == 6 then Some(ByRoute(values[0], values[1], values[2], values[3]))
    else None
  }

  /**
   * `main`: argc 4, 5 or 6 runs the two-, three- or four-value filter and
   * returns 1; any other count writes nothing and returns 0.
   */
  method Dispatch(argc: int, values: seq<string>, input: Option<seq<string>>)
    returns (code: int, out: Option<seq<string>>)
    requires |values| == argc - 2
    requires (argc == 5 || argc == 6) ==> input.Some?
    requires 4 <= argc <= 6 && input.Some? ==> AllWellFormed(input.value)
    ensures code == (if 4 <= argc <= 6 then 1 else 0)
    ensures out.Some? <==> 4 <= argc <= 6
    ensures out.Some? && input.None? ==> out.value == []
    ensures out.Some? && input.Some? ==> out.value == Report(QueryOf(argc, values).value, input.value)
  {
    var q := QueryOf(argc, values);
    if q.Some? {
      var written := RunQuery(q.value, input);
      return 1, Some(written);
    }
    return 0, None;
  }
}
