# Airline routes tools — a Dafny model

This project models the core of three generations of a small airline-routes
query tool and proves properties of each.

- **Filter engine** (`a1/route_manager.c`, module `FilterEngine`, file
  `filter_engine.dfy`). Each CSV line is split into positional fields by
  `strtok(line, ",")`. A line is kept when two, three or four fixed positions
  equal the values given on the command line. The report is then written:
  a context header once, before the first match, and one formatted line per
  match in input order. When nothing matches, the report is the single line
  `NO RESULTS FOUND.`.
  - `strtok` is modelled in `clib.dfy` (module `CLib`).
  - The token loop fills a 14-slot `array` in place.
  - The line loop is a method whose invariant ties the written lines to a
    specification function of the lines read so far.
- **Aggregation engine** (`a3/route_manager.c`, modules `ValueCleanup`,
  `YamlScanner` and `Aggregation`).
  - `removeWhitespace` and the question-two clean-up of country values work
    in place on a NUL-terminated `array<char>`.
  - The scanner keeps the fields of the current route in a `class Route`.
    Each `key: value` line is split at the first `:`. A trigger line inserts
    a label into a word list kept in `strcmp` order.
  - The counting loop turns each block of equal adjacent labels into an
    entry `label + count` and places it into a result list in ranking order.
  - `exportCSV` writes `subject,statistic` and the first N entries.
  - `main` picks the handler from the question argument.
  - Every scanner step is specified by a pure function of the route fields
    and the line. A routes file built from route entries is proved to yield
    exactly the labels those entries stand for.
- **Ranking semantics** (`a2/route_manager.py`, module `Ranking`, file
  `ranking.dfy`). The pandas pipelines of `q1`–`q4` are pure functions over
  already-joined rows: filter, build the subject, `groupby(...).size()`, sort
  by count (descending, or ascending for `q2`) and then by key ascending, and
  `head(N)`.
  - For `q4` the sort at a2/route_manager.py:343 names only `size` and
    `airport_city`, yet the model breaks the last ties on the whole key
    `[city, country]`. This is the same order: `groupby` returns its groups
    sorted by `(city, country)`, and pandas' multi-column `sort_values` is
    stable, so groups equal in size and city keep their country order.
  - The ranking is proved to be unique.
  - The aggregation engine's result is proved equal to the ranking of the
    labels its scanner produced. This is the rule both generations share.

Shared pieces:
- `text.dfy` (module `Text`): `strcmp` order, `%d` formatting and its inverse,
  and joining with a separator.
- `wrappers.dfy` (module `Wrappers`): `Option`.

Output files are modelled as sequences of lines without their trailing `\n`.
Input files are sequences of lines, and a file that cannot be opened is
`None`.

## Model

| member | source | states |
|---|---|---|
| CLib.TokensAreNonEmptyFields | a1/route_manager.c:145-153 | the `strtok` tokens of a line are exactly the non-empty fields of splitting it at every comma, in order: consecutive commas collapse and later fields shift left |
| CLib.TokensShape | a1/route_manager.c:145-153 | no token is empty and no token contains the delimiter |
| CLib.LeadingDelimiter | a1/route_manager.c:145-153 | a leading comma changes neither the tokens nor the non-empty fields |
| CLib.StrtokDelimited | a3/route_manager.c:195-196 | on `a + d + rest` with `a` non-empty and free of `d`, `strtok` returns `a` and continues at `rest` |
| FilterEngine.FillRoutes | a1/route_manager.c:143-153 | after the token loop, `routes[0..counter)` holds exactly the `strtok` tokens of the line, in order |
| FilterEngine.ScanLine | a1/route_manager.c:141-170 | one pass of the line loop: the line is kept iff its fields satisfy the query; a kept line appends the header (only if none was written yet) and its match line; otherwise the output and flag are unchanged |
| FilterEngine.RunQuery | a1/route_manager.c:122-311 | the two-, three- and four-value filters write exactly `Report(q, lines)`; the two-value filter without an input file leaves output.txt empty |
| FilterEngine.MatchesAreKeptLines | a1/route_manager.c:141-171 | soundness, completeness and order: the matches are the fields of exactly those lines whose fields satisfy the query, taken at strictly increasing line positions |
| FilterEngine.MatchesSatisfyQuery | a1/route_manager.c:156-289 | every match has field 1 = airline and field 10 = destination country (two values), fields 5, 9, 10 equal (three values), or fields 4, 5, 9, 10 equal (four values) |
| FilterEngine.ListingSnoc | a1/route_manager.c:160-166 | a new match adds the header only when it is the first match, and then its own match line |
| FilterEngine.ReportShape | a1/route_manager.c:155-175 | the report has one line per match plus one; line k+1 is the formatted line of match k; exactly the first line is a header, and only when something matched; `NO RESULTS FOUND.` appears iff nothing matched, and then it is the only line |
| FilterEngine.QueryOf | a1/route_manager.c:51-69 | argc 4, 5, 6 select the two-, three-, four-value filter; any other count selects none |
| FilterEngine.Dispatch | a1/route_manager.c:46-73 | `main` returns 1 after running a filter for argc 4, 5 or 6 and writes its report; any other argc returns 0 and writes nothing |
| Text.DecimalRoundTrip | a3/route_manager.c:246 | the `%d` text of a count parses back to the count |
| ValueCleanup.ShiftedLeftDropsFirst | a3/route_manager.c:118-129 | the buffer after the shift holds the string without its first character, one shorter |
| ValueCleanup.RemoveWhitespace | a3/route_manager.c:118-129 | in place: the characters after the first move one place left, a terminator goes where the last one was, the rest of the buffer is untouched |
| ValueCleanup.TrimTrailingSpaces | a3/route_manager.c:355-362 | the result is a prefix of the input that does not end in a space, and everything cut off is spaces |
| ValueCleanup.LastNonSpace | a3/route_manager.c:355-359 | the backward walk stops at the last non-space position, so the kept prefix is the input with trailing spaces trimmed |
| ValueCleanup.DropLeadingQuote | a3/route_manager.c:346-351 | in place: a leading quote is removed together with the character after it; any other value is left alone |
| ValueCleanup.DropTrailingQuote | a3/route_manager.c:352-363 | in place: a trailing quote is removed together with every space before it; any other value is left alone |
| ValueCleanup.CleanCountry | a3/route_manager.c:344-363 | in place: the string becomes `CountryValue` of the old one (indentation dropped, then both quote steps) |
| ValueCleanup.PlainCountry | a3/route_manager.c:344-363 | a country without quotes keeps everything after the indentation character |
| ValueCleanup.QuotedCountry | a3/route_manager.c:346-363 | `'<c>s'` after the indentation becomes `s` without trailing spaces: both quotes go, and so does the character after the opening one |
| YamlScanner.KeyLineParses | a3/route_manager.c:195-196 | a `key: value` line is not blank, and the two `strtok` calls give the key and the value with its leading space |
| YamlScanner.ScanNext | a3/route_manager.c:188-227 | reading one more line: a blank line changes nothing; any other line takes one step of the handler on the current route and appends the label it adds |
| YamlScanner.BlankLineIgnored | a3/route_manager.c:191-194 | a whitespace-only line anywhere in the file changes neither the route fields nor the labels |
| YamlScanner.PassiveKey | a3/route_manager.c:199-213 | a line whose key the handler does not read changes nothing and adds no label (its raw value starts with a space, so it is never `Canada`) |
| YamlScanner.AirlineStep | a3/route_manager.c:199-203 | the `-` line sets the airline name to the value without its first character |
| YamlScanner.IcaoStepOne | a3/route_manager.c:204-208 | question one stores the airline ICAO code without its first character |
| YamlScanner.CountryStepOne | a3/route_manager.c:209-226 | question one stores the destination country and, when it reads `Canada`, adds `name (code),` of the airline seen last |
| YamlScanner.CountryStepTwo | a3/route_manager.c:342-373 | question two stores the cleaned country and adds `country,` |
| YamlScanner.FieldStepsThree | a3/route_manager.c:489-504 | question three stores the destination name, city and country, adding nothing |
| YamlScanner.CodeStepThree | a3/route_manager.c:505-526 | question three stores the destination code and adds `"name (code), city, country",` built from the fields read so far |
| YamlScanner.DestinationOne | a3/route_manager.c:209-226 | question one: the destination lines of an entry add the airline label exactly when the country is `Canada` |
| YamlScanner.DestinationTwo | a3/route_manager.c:342-373 | question two: the destination lines of an entry add exactly the cleaned country label |
| YamlScanner.DestinationThree | a3/route_manager.c:489-526 | question three: the destination lines of an entry add exactly the airport label, once its code is read |
| YamlScanner.EntryScan | a3/route_manager.c:188-227 | a whole route entry adds exactly its label(s), whatever route came before it (the loops at 326-374 and 474-527 likewise) |
| YamlScanner.FileLabels | a3/route_manager.c:176-227 | a file made of a first line and route entries yields, in file order, exactly the labels the entries stand for (one per `Canada` route for question one, one per entry for questions two and three) |
| YamlScanner.InsertInOrderSpec | a3/route_manager.c:224 | `add_inorder` keeps the word list in `strcmp` order and adds exactly the one word |
| YamlScanner.SortedUnique | a3/route_manager.c:224 | two lists in `strcmp` order holding the same words are equal, so where ties land cannot matter |
| YamlScanner.Route.constructor | a3/route_manager.c:183-186 | the model's fresh route record has all fields empty (the C leaves the `malloc`'d buffers uninitialised) |
| YamlScanner.Unindent | a3/route_manager.c:201-202 | `removeWhitespace` on a copied value gives the value without its first character |
| YamlScanner.CleanedCountry | a3/route_manager.c:344-364 | the question-two clean-up on a copied value gives `CountryValue` of it |
| YamlScanner.ScanLineOne | a3/route_manager.c:195-226 | the question-one loop body updates the route as `Step` says and inserts the label it adds |
| YamlScanner.ScanLineTwo | a3/route_manager.c:333-373 | the question-two loop body updates the route as `Step` says and inserts the label it adds |
| YamlScanner.ScanLineThree | a3/route_manager.c:481-526 | the question-three loop body updates the route as `Step` says and inserts the label it adds |
| YamlScanner.ScanLine | a3/route_manager.c:195-226 | a non-blank line moves the route on by one step; the list stays sorted and gains exactly the label the line adds |
| YamlScanner.ReadNext | a3/route_manager.c:188-194 | one pass of the loop: blank lines are skipped, others read; route and list stand as after the first i+1 lines |
| YamlScanner.ScanFile | a3/route_manager.c:176-227 | after skipping the first line and scanning the rest, the word list is in `strcmp` order and holds exactly the labels of the file |
| Aggregation.RunsCanonical | a3/route_manager.c:235-261 | every run counts at least one word and neighbouring runs hold different words (maximal runs, no zero-count entry) |
| Aggregation.RunsExpand | a3/route_manager.c:235-261 | counting loses nothing: expanding the runs gives back the word list |
| Aggregation.ExpandRuns | a3/route_manager.c:235-261 | maximal runs are exactly what counting their expansion gives (one entry per maximal block) |
| Aggregation.RunsTotal | a3/route_manager.c:235-261 | the counts add up to the length of the word list |
| Aggregation.RunsDistinct | a3/route_manager.c:235-261 | on a sorted list no label has two entries |
| Aggregation.RunsCount | a3/route_manager.c:235-261 | on a sorted list the run entries are exactly the `groupby(...).size()` groups of the labels |
| Aggregation.RunsStep | a3/route_manager.c:237-259 | one step of the loop: an equal successor extends the current run; a different one closes it and starts a run of one |
| Aggregation.AddEntry | a3/route_manager.c:250-257 | placing an entry keeps the result list in ranking order and adds exactly that entry |
| Aggregation.CountRuns | a3/route_manager.c:228-261 | the result list is in ranking order and holds exactly the entries of the runs of the word list |
| Aggregation.CountRunsRank | a3/route_manager.c:250-257 | a result list in ranking order holding the run entries of a sorted list is the ranking of its labels |
| Aggregation.Csv | a3/route_manager.c:138-154 | the file has `1 + min(max(N, 0), entries)` lines and starts with `subject,statistic` |
| Aggregation.ExportCSV | a3/route_manager.c:138-154 | the loop writes the header and then the first N entries in list order; N ≤ 0 writes only the header |
| Aggregation.EntryLineReads | a3/route_manager.c:243-247 | an entry line `label,count` splits at its last comma into the label text and the digits of the count, even when the label holds commas |
| Aggregation.Answer | a3/route_manager.c:162-291 | a handler returns 1 and writes nothing without an input file; otherwise it returns 0 and writes the header and the top N of the ranking of the labels the scan produced |
| Aggregation.Dispatch | a3/route_manager.c:604-624 | question `1`, `2`, `3` runs that handler and exits 0; any other question exits 1 and writes nothing |
| Ranking.BeforeTotal | a2/route_manager.py:191 | the two-key order ranks groups with different keys one way round, and never both |
| Ranking.CountKeysSpec | a2/route_manager.py:191 | `groupby(...).size()`: one group per distinct key, none empty, each counting exactly the rows with its key; the sizes add up to the number of rows grouped |
| Ranking.SortGroupsSpec | a2/route_manager.py:191 | `sort_values` permutes the groups, keeps their keys, and leaves them in ranking order |
| Ranking.RankingUnique | a2/route_manager.py:191 | with distinct keys the tie-break fixes the order: two ranking-ordered arrangements of the same groups are equal |
| Ranking.Take | a2/route_manager.py:191 | `head(n)` keeps the first `min(n, len)` groups unchanged |
| Ranking.SortedGroupsSpec | a2/route_manager.py:191 | the sorted grouping holds exactly the groups of the keys, each counting the rows of its key (≥ 1), strictly in ranking order |
| Ranking.TopN | a2/route_manager.py:191 | cutting a strictly ordered list keeps the order, and everything cut ranks after everything kept |
| Ranking.RankSpec | a2/route_manager.py:191 | the top-N: `min(N, distinct keys)` groups with distinct keys, each counting its rows, strictly ranked; every omitted group ranks after every reported one |
| Ranking.RankIgnoresOrder | a2/route_manager.py:191 | the ranking depends only on how often each key occurs, not on the order of the rows |
| Ranking.KeysOfCount | a2/route_manager.py:188 | every counted row contributes its key once and only counted rows contribute; q2–q4 count every row |
| Ranking.CitySubject | a2/route_manager.py:346 | q4's subject is `city + ", " + country` |
| Ranking.SubjectsOfKeys | a2/route_manager.py:343-346 | q4's keys are (city, country) pairs written as `city, country`; the other questions' subjects are their single key |
| Ranking.AnswerSpec | a2/route_manager.py:160-355 | each of q1–q4 writes `min(limit, distinct keys)` rows (limits 20, 30, 10, 15), strictly ranked by count (ascending for q2) then key; each statistic is the number of rows with that subject (≥ 1); everything cut by `head` ranks after everything kept |
| Ranking.CanadaScenario | a2/route_manager.py:181-197 | two Canada routes by Air Canada and one by WestJet give `Air Canada (AC),2` before `WestJet (WS),1` |

## Left out

- File and stream I/O (`fopen`, `fgets`, `fprintf`, `fclose`, `open`, `to_csv`) is left out. Input is a sequence of lines and output a sequence of lines without `\n`. An unopenable file is `None`.
- The splitting of long lines by `fgets` (80 and 256 bytes) is left out: every line is taken whole.
- `list.h` is not part of this model.
  - `add_inorder` is modelled only as an insertion that keeps `strcmp` order (`YamlScanner.InsertInOrder`).
  - The re-sorts `sortDecending`/`sortAscending` are modelled by the two-key ranking rule of the pandas tool (`Ranking.Insert`).
  - `add_front` on the empty list is a one-element list.
  - `remove_front`, `apply` and the freeing loops are left out.
- `YamlScanner.Route.constructor` gives a fresh route record empty fields. The C only `malloc`s the buffers (a3/route_manager.c:184-186, 468-472), so their contents are indeterminate. This differs only for a file where a label is built before the fields it reads are set, for example a `Canada` country line before any `- airline_name` line. There the C reads uninitialised memory, and `YamlScanner.ScanFile` and `Aggregation.Answer` give a defined answer. `YamlScanner.EntryScan` holds for any starting route, so `YamlScanner.FileLabels` does not depend on the empty start.
- `malloc`/`free` and the fixed buffer sizes are not modelled: strings are unbounded, so `strcpy`/`strcat` overflow cannot occur.
- Undefined behaviour is excluded by preconditions:
  - a NULL `value` from `strtok` where a handler uses it (`YamlScanner.Usable`);
  - `removeWhitespace` on an empty string;
  - a question-two country too short for its quote handling (`ValueCleanup.Cleanable`);
  - CSV lines with fewer than 12 or more than 14 fields (`FilterEngine.WellFormedLine`);
  - the three- and four-value filters reading a file that could not be opened;
  - a line holding a NUL character: every scanned line is a C string, so a NUL could only end it early (`YamlScanner.Scannable`).
- The newline that `fgets` leaves on the last CSV field is not treated specially: fields are the `strtok` tokens of the line exactly as given.
- Command-line parsing (`get_arguments`, `sscanf`, `inputData`) is left out. The filter values, the question string and N are parameters. `atoi(N)` is taken as the integer it yields.
- The debug helpers `analysis`, `print_node` and `inccounter` are left out.
- In `a2/route_manager.py`:
  - YAML loading and the pandas `merge` joins are left out: rows are already joined, with every field present;
  - plotting is left out;
  - `q5` is left out, since it relies on floating-point arithmetic with NaN;
  - pandas' CSV quoting is left out.
- `YamlScanner.FileLabels` covers only entries where neither the question-one airline name nor its code reads `Canada` (`YamlScanner.EntryFits`). Question one compares whatever value the current line holds with `Canada`, so such an entry adds an extra label. The step function `YamlScanner.StepOne` models that comparison as written.
- `FilterEngine.Dispatch`: `main` returns 1 from each of the argc 4, 5 and 6 branches (a1/route_manager.c:51-69) and 0 otherwise; the model follows the code.
