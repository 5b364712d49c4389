/**
 * The line scanner of the YAML aggregation tool (a3/route_manager.c). After
 * its first line, the routes file is read line by line. A line that is not
 * blank is split by `strtok` into a key (up to the first `:`) and a value (the
 * rest up to the newline). The fields of the current route that the question
 * needs are overwritten from their keys, and a trigger line adds a label to a
 * word list kept in `strcmp` order.
 */
module YamlScanner {
  import opened Wrappers
  import opened Text
  import opened CLib
  import opened ValueCleanup

  /** The three questions: routes to Canada by airline, destination countries, destination airports. */
  datatype Question = One | Two | Three

  const IcaoKey: string := "  airline_icao_unique_code"
  const ToNameKey: string := "  to_airport_name"
  const ToCityKey: string := "  to_airport_city"
  const ToCountryKey: string := "  to_airport_country"
  const ToCodeKey: string := "  to_airport_icao_unique_code"
  const ToAltitudeKey: string := "  to_airport_altitude"

  /** The fields of the current route that the handlers write. */
  datatype Current = Current(
    airlineName: string,
    airlineCode: string,
    toName: string,
    toCity: string,
    toCountry: string,
    toCode: string)

  /** The fields of a fresh route record. The C leaves its `malloc`'d buffers
      uninitialised; the model starts them empty. */
  const Blank: Current := Current("", "", "", "", "", "")

  // ---------------------------------------------------------------------
  // One line
  // ---------------------------------------------------------------------

  /** The key of a line and, when there is one, its value. */
  datatype Parsed = Parsed(key: string, value: Option<string>)

  /**
   * `key = strtok(line, ":")` and then `value = strtok(NULL, "\n")`; None when
   * the line holds nothing but colons (the key is NULL).
   */
  function ParseLine(line: string): (r: Option<Parsed>)
    ensures r.Some? ==> line != []
    ensures r.Some? && r.value.value.Some? ==> r.value.value.value != []
  {
    match Strtok(line, ':')
    case None => None
    case Some(first) =>
      Some(Parsed(first.0,
        match Strtok(first.1, '\n')
        case None => None
        case Some(second) => Some(second.0)))
  }

  /** The key and the value are pieces of the line, so a line without NUL gives them none. */
  lemma ParseLineChars(line: string)
    requires NUL !in line && ParseLine(line).Some?
    ensures NUL !in ParseLine(line).value.key
    ensures ParseLine(line).value.value.Some? ==> NUL !in ParseLine(line).value.value.value
  {
    StrtokChars(line, ':');
    StrtokChars(Strtok(line, ':').value.1, '\n');
  }

  /**
   * What the handler of question `q` needs of a parsed line: a value wherever
   * it passes one to `removeWhitespace` or `strcmp` (a NULL value there is
   * undefined), and for question two a country value long enough for its
   * quote handling.
   */
  predicate Usable(q: Question, dash: bool, key: string, value: Option<string>)
  {
    if q == One then
      value.Some?
    else if q == Two then
      (dash ==> value.Some?) &&
      (!dash && key == ToCountryKey ==> value.Some? && Cleanable(value.value))
    else
      (dash || key == ToNameKey || key == ToCityKey || key == ToCountryKey || key == ToCodeKey)
        ==> value.Some?
  }

  /** A line the handler of question `q` can read: a C string whose key `strtok` finds. */
  predicate Scannable(q: Question, line: string)
  {
    NUL !in line && ParseLine(line).Some? &&
    Usable(q, line[0] == '-', ParseLine(line).value.key, ParseLine(line).value.value)
  }

  /** The route fields after a line and the label it adds, if any. */
  datatype Outcome = Outcome(route: Current, added: Option<string>)

  /** The question-one label: `name (code),`. */
  function AirlineLabel(name: string, code: string): string
  {
    name + " (" + code + "),"
  }

  /** The question-two label: `country,`. */
  function CountryLabel(country: string): string
  {
    country + ","
  }

  /** The question-three label: `"name (code), city, country",`. */
  function AirportLabel(name: string, code: string, city: string, country: string): string
  {
    "\"" + name + " (" + code + "), " + city + ", " + country + "\","
  }

  /**
   * Question one: a line starting with `-` sets the airline name, the ICAO
   * code and destination country keys set theirs (each without its first
   * character); then a value that reads `Canada` adds the label of the
   * airline seen last.
   */
  function StepOne(cur: Current, dash: bool, key: string, value: string): Outcome
    requires value != []
  {
    var route :=
      if dash then cur.(airlineName := value[1..])
      else if key == IcaoKey then cur.(airlineCode := value[1..])
      else if key == ToCountryKey then cur.(toCountry := value[1..])
      else cur;
    var shown := if dash || key == IcaoKey || key == ToCountryKey then value[1..] else value;
    Outcome(route, if shown == "Canada" then Some(AirlineLabel(route.airlineName, route.airlineCode)) else None)
  }

  /**
   * Question two: a line starting with `-` sets the airline name; a
   * destination country line sets the cleaned country and adds its label.
   */
  function StepTwo(cur: Current, dash: bool, key: string, value: Option<string>): Outcome
    requires dash ==> value.Some? && value.value != []
    requires !dash && key == ToCountryKey ==> value.Some? && Cleanable(value.value)
  {
    if dash then Outcome(cur.(airlineName := value.value[1..]), None)
    else if key == ToCountryKey then
      var country := CountryValue(value.value);
      Outcome(cur.(toCountry := country), Some(CountryLabel(country)))
    else Outcome(cur, None)
  }

  /**
   * Question three: the destination name, city and country lines set their
   * fields; a destination ICAO code line sets the code and adds the label of
   * the destination airport.
   */
  function StepThree(cur: Current, dash: bool, key: string, value: Option<string>): Outcome
    requires dash || key == ToNameKey || key == ToCityKey || key == ToCountryKey || key == ToCodeKey
      ==> value.Some? && value.value != []
  {
    if dash then Outcome(cur.(airlineName := value.value[1..]), None)
    else if key == ToNameKey then Outcome(cur.(toName := value.value[1..]), None)
    else if key == ToCityKey then Outcome(cur.(toCity := value.value[1..]), None)
    else if key == ToCountryKey then Outcome(cur.(toCountry := value.value[1..]), None)
    else if key == ToCodeKey then
      var route := cur.(toCode := value.value[1..]);
      Outcome(route, Some(AirportLabel(route.toName, route.toCode, route.toCity, route.toCountry)))
    else Outcome(cur, None)
  }

  /** A parsed line, read by the handler of question `q`. */
  function StepParsed(q: Question, cur: Current, dash: bool, key: string, value: Option<string>): Outcome
    requires Usable(q, dash, key, value) && (value.Some? ==> value.value != [])
  {
    match q
    case One => StepOne(cur, dash, key, value.value)
    case Two => StepTwo(cur, dash, key, value)
    case Three => StepThree(cur, dash, key, value)
  }

  /** One line that is not blank, read by the handler of question `q`. */
  function Step(q: Question, cur: Current, line: string): Outcome
    requires Scannable(q, line)
  {
    var p := ParseLine(line).value;
    StepParsed(q, cur, line[0] == '-', p.key, p.value)
  }

  // ---------------------------------------------------------------------
  // A whole file
  // ---------------------------------------------------------------------

  /** A line as the loop sees it: skipped as blank, or split into its parts. */
  datatype Item = Skipped | KeyValue(dash: bool, key: string, value: Option<string>)

  /** A blank line, or one in which `strtok` finds a key. */
  predicate Parses(line: string)
  {
    IsBlank(line) || ParseLine(line).Some?
  }

  /** The blank test, then the two `strtok` calls and the first character. */
  function ReadLine(line: string): Item
    requires Parses(line)
  {
    if IsBlank(line) then Skipped
    else KeyValue(line[0] == '-', ParseLine(line).value.key, ParseLine(line).value.value)
  }

  function ReadLines(lines: seq<string>): (items: seq<Item>)
    requires forall i :: 0 <= i < |lines| ==> Parses(lines[i])
    ensures |items| == |lines|
    ensures forall i :: 0 <= i < |lines| ==> items[i] == ReadLine(lines[i])
  {
    seq(|lines|, i requires 0 <= i < |lines| => ReadLine(lines[i]))
  }

  /** An item the handler of question `q` can act on. */
  predicate UsableItem(q: Question, it: Item)
  {
    it.Skipped? || (Usable(q, it.dash, it.key, it.value) && (it.value.Some? ==> it.value.value != []))
  }

  predicate UsableItems(q: Question, items: seq<Item>)
  {
    forall i :: 0 <= i < |items| ==> UsableItem(q, items[i])
  }

  /** The route fields and the labels, in line order, after a run of lines. */
  datatype State = State(route: Current, labels: seq<string>)

  function Emitted(added: Option<string>): seq<string>
  {
    if added.None? then [] else [added.value]
  }

  /** Acting on `items` from the route fields `start`; skipped lines change nothing. */
  function ScanItems(q: Question, start: Current, items: seq<Item>): State
    requires UsableItems(q, items)
  {
    if items == [] then State(start, [])
    else
      var before := ScanItems(q, start, items[..|items| - 1]);
      var it := items[|items| - 1];
      if it.Skipped? then before
      else
        var o := StepParsed(q, before.route, it.dash, it.key, it.value);
        State(o.route, before.labels + Emitted(o.added))
  }

  predicate ScannableLines(q: Question, lines: seq<string>)
  {
    forall i :: 0 <= i < |lines| && !IsBlank(lines[i]) ==> Scannable(q, lines[i])
  }

  /** Reading `lines` from the route fields `start`. */
  function ScanLines(q: Question, start: Current, lines: seq<string>): State
    requires ScannableLines(q, lines)
  {
    assert forall i :: 0 <= i < |lines| ==> Parses(lines[i]);
    ScanItems(q, start, ReadLines(lines))
  }

  /** The first line of the file is read and ignored. */
  predicate ScannableFile(q: Question, file: seq<string>)
  {
    file != [] ==> ScannableLines(q, file[1..])
  }

  /** The labels a handler adds while reading `file`, in line order. */
  function Labels(q: Question, file: seq<string>): seq<string>
    requires ScannableFile(q, file)
  {
    if file == [] then [] else ScanLines(q, Blank, file[1..]).labels
  }

  /** Reading the lines of a file one more line at a time. */
  lemma ScanNext(q: Question, s: Current, lines: seq<string>, i: nat)
    requires ScannableLines(q, lines) && i < |lines|
    ensures ScannableLines(q, lines[..i]) && ScannableLines(q, lines[..i + 1])
    ensures !IsBlank(lines[i]) ==> Scannable(q, lines[i])
    ensures IsBlank(lines[i]) ==> ScanLines(q, s, lines[..i + 1]) == ScanLines(q, s, lines[..i])
    ensures !IsBlank(lines[i]) ==>
      (ScanLines(q, s, lines[..i + 1]).route == Step(q, ScanLines(q, s, lines[..i]).route, lines[i]).route)
    ensures !IsBlank(lines[i]) ==> (ScanLines(q, s, lines[..i + 1]).labels
      == ScanLines(q, s, lines[..i]).labels + Emitted(Step(q, ScanLines(q, s, lines[..i]).route, lines[i]).added))
  {
    assert forall k :: 0 <= k < i + 1 ==> lines[..i + 1][k] == lines[k];
    assert ReadLines(lines[..i + 1])[..i] == ReadLines(lines[..i]);
  }

  /** Acting on `a` and then on `b` is acting on `a + b`. */
  lemma {:induction false} ScanItemsAppend(q: Question, s: Current, a: seq<Item>, b: seq<Item>)
    requires UsableItems(q, a) && UsableItems(q, b)
    ensures UsableItems(q, a + b)
    ensures ScanItems(q, s, a + b).route == ScanItems(q, ScanItems(q, s, a).route, b).route
    ensures ScanItems(q, s, a + b).labels == ScanItems(q, s, a).labels + ScanItems(q, ScanItems(q, s, a).route, b).labels
  {
    assert UsableItems(q, a + b) by {
      forall i | 0 <= i < |a + b|
        ensures UsableItem(q, (a + b)[i])
      {
        if i < |a| {
          assert (a + b)[i] == a[i];
        } else {
          assert (a + b)[i] == b[i - |a|];
        }
      }
    }
    if b == [] {
      assert a + b == a;
    } else {
      var init := b[..|b| - 1];
      assert (a + b)[..|a + b| - 1] == a + init;
      assert (a + b)[|a + b| - 1] == b[|b| - 1];
      ScanItemsAppend(q, s, a, init);
    }
  }

  lemma ReadLinesAppend(a: seq<string>, b: seq<string>)
    requires forall i :: 0 <= i < |a| ==> Parses(a[i])
    requires forall i :: 0 <= i < |b| ==> Parses(b[i])
    ensures forall i :: 0 <= i < |a + b| ==> Parses((a + b)[i])
    ensures ReadLines(a + b) == ReadLines(a) + ReadLines(b)
  {
    assert forall i :: 0 <= i < |a + b| ==> (a + b)[i] == if i < |a| then a[i] else b[i - |a|];
  }

  /**
   * A blank line changes neither the route fields nor the labels, wherever
   * it stands.
   */
  lemma BlankLineIgnored(q: Question, s: Current, a: seq<string>, blank: string, c: seq<string>)
    requires ScannableLines(q, a) && ScannableLines(q, c) && IsBlank(blank)
    ensures ScannableLines(q, a + [blank] + c)
    ensures ScanLines(q, s, a + [blank] + c) == ScanLines(q, s, a + c)
  {
    ReadLinesAppend(a, [blank]);
    ReadLinesAppend(a + [blank], c);
    ReadLinesAppend(a, c);
    var ra, rc := ReadLines(a), ReadLines(c);
    assert ReadLines([blank]) == [Skipped];
    assert ScanItems(q, s, ra + [Skipped]) == ScanItems(q, s, ra) by {
      assert (ra + [Skipped])[..|ra|] == ra;
    }
    ScanItemsAppend(q, s, ra + [Skipped], rc);
    ScanItemsAppend(q, s, ra, rc);
    ScannableConcat(q, a, [blank]);
    ScannableConcat(q, a + [blank], c);
  }

  lemma ScannableConcat(q: Question, a: seq<string>, b: seq<string>)
    requires ScannableLines(q, a) && ScannableLines(q, b)
    ensures ScannableLines(q, a + b)
  {
    assert forall i :: 0 <= i < |a + b| ==> (a + b)[i] == if i < |a| then a[i] else b[i - |a|];
  }

  // ---------------------------------------------------------------------
  // The routes file
  // ---------------------------------------------------------------------

  /** A `key: value` line of the routes file. */
  function KeyLine(key: string, value: string): string
  {
    key + ": " + value + "\n"
  }

  /** A value that fits on one line of a C string. */
  predicate Plain(v: string)
  {
    '\n' !in v && NUL !in v
  }

  /** A key the file can hold. */
  predicate KeyText(key: string)
  {
    key != [] && ':' !in key && NUL !in key
  }

  /** `strtok` gives back the key, and the value behind the one space after the colon. */
  lemma KeyLineParses(key: string, value: string)
    requires KeyText(key) && '\n' !in value
    ensures !IsBlank(KeyLine(key, value))
    ensures ParseLine(KeyLine(key, value)) == Some(Parsed(key, Some(" " + value)))
  {
    var tail := " " + value + "\n";
    assert KeyLine(key, value) == key + [':'] + tail;
    assert KeyLine(key, value)[|key|] == ':';
    StrtokDelimited(key, ':', tail);
    assert '\n' !in " " + value;
    assert tail == (" " + value) + ['\n'] + [];
    StrtokDelimited(" " + value, '\n', []);
  }

  /** A `key: value` line is read as its key and its value behind the space. */
  lemma KeyLineRead(key: string, value: string)
    requires KeyText(key) && Plain(value)
    ensures NUL !in KeyLine(key, value) && Parses(KeyLine(key, value)) && !IsBlank(KeyLine(key, value))
    ensures ReadLine(KeyLine(key, value)) == KeyValue(key[0] == '-', key, Some(" " + value))
  {
    KeyLineParses(key, value);
    assert KeyLine(key, value)[0] == key[0];
  }

  /** The keys whose lines the handler of question `q` reads. */
  predicate Relevant(q: Question, key: string)
  {
    match q
    case One => key == IcaoKey || key == ToCountryKey
    case Two => key == ToCountryKey
    case Three => key == ToNameKey || key == ToCityKey || key == ToCountryKey || key == ToCodeKey
  }

  /**
   * A line of any other key changes nothing: question one compares its raw
   * value, which starts with a space, with `Canada`.
   */
  lemma PassiveKey(q: Question, cur: Current, key: string, value: string)
    requires key != [] && key[0] != '-' && !Relevant(q, key)
    ensures UsableItem(q, KeyValue(false, key, Some(" " + value)))
    ensures StepParsed(q, cur, false, key, Some(" " + value)) == Outcome(cur, None)
  {
    assert (" " + value)[0] != "Canada"[0];
  }

  /** The first line of an entry sets the airline name. */
  lemma AirlineStep(q: Question, cur: Current, v: string)
    requires q == One ==> v != "Canada"
    ensures UsableItem(q, KeyValue(true, "- airline_name", Some(" " + v)))
    ensures StepParsed(q, cur, true, "- airline_name", Some(" " + v)) == Outcome(cur.(airlineName := v), None)
  {
    assert (" " + v)[1..] == v;
  }

  /** Question one reads the ICAO code of the airline. */
  lemma IcaoStepOne(cur: Current, v: string)
    requires v != "Canada"
    ensures UsableItem(One, KeyValue(false, IcaoKey, Some(" " + v)))
    ensures StepParsed(One, cur, false, IcaoKey, Some(" " + v)) == Outcome(cur.(airlineCode := v), None)
  {
    assert (" " + v)[1..] == v;
  }

  /** The label question one adds for a destination country: the airline, when the country is `Canada`. */
  function CanadaAirline(cur: Current, country: string): Option<string>
  {
    if country == "Canada" then Some(AirlineLabel(cur.airlineName, cur.airlineCode)) else None
  }

  /** Question one reads the destination country, and a `Canada` adds the airline. */
  lemma CountryStepOne(cur: Current, v: string)
    ensures UsableItem(One, KeyValue(false, ToCountryKey, Some(" " + v)))
    ensures StepParsed(One, cur, false, ToCountryKey, Some(" " + v))
      == Outcome(cur.(toCountry := v), CanadaAirline(cur, v))
  {
    assert (" " + v)[1..] == v;
  }

  /** Question two cleans the destination country and adds it. */
  lemma CountryStepTwo(cur: Current, v: string)
    requires Cleanable(" " + v)
    ensures UsableItem(Two, KeyValue(false, ToCountryKey, Some(" " + v)))
    ensures StepParsed(Two, cur, false, ToCountryKey, Some(" " + v))
      == Outcome(cur.(toCountry := CountryValue(" " + v)), Some(CountryLabel(CountryValue(" " + v))))
  {
  }

  /** Question three reads the destination name, city and country. */
  lemma FieldStepsThree(cur: Current, v: string)
    ensures UsableItem(Three, KeyValue(false, ToNameKey, Some(" " + v)))
    ensures UsableItem(Three, KeyValue(false, ToCityKey, Some(" " + v)))
    ensures UsableItem(Three, KeyValue(false, ToCountryKey, Some(" " + v)))
    ensures StepParsed(Three, cur, false, ToNameKey, Some(" " + v)) == Outcome(cur.(toName := v), None)
    ensures StepParsed(Three, cur, false, ToCityKey, Some(" " + v)) == Outcome(cur.(toCity := v), None)
    ensures StepParsed(Three, cur, false, ToCountryKey, Some(" " + v)) == Outcome(cur.(toCountry := v), None)
  {
    assert (" " + v)[1..] == v;
  }

  /** Question three reads the destination code and adds the airport. */
  lemma CodeStepThree(cur: Current, v: string)
    ensures UsableItem(Three, KeyValue(false, ToCodeKey, Some(" " + v)))
    ensures StepParsed(Three, cur, false, ToCodeKey, Some(" " + v))
      == Outcome(cur.(toCode := v), Some(AirportLabel(cur.toName, v, cur.toCity, cur.toCountry)))
  {
    assert (" " + v)[1..] == v;
  }

  /** A run of items none of which changes anything. */
  lemma {:induction false} ScanPassive(q: Question, s: Current, items: seq<Item>)
    requires forall i :: 0 <= i < |items| ==>
      (items[i].KeyValue? && UsableItem(q, items[i]) &&
       StepParsed(q, s, items[i].dash, items[i].key, items[i].value) == Outcome(s, None))
    ensures UsableItems(q, items)
    ensures ScanItems(q, s, items) == State(s, [])
  {
    if items != [] {
      ScanPassive(q, s, items[..|items| - 1]);
    }
  }

  /** One route of the routes file, every field as the text after `key: `. */
  datatype RouteEntry = RouteEntry(
    airlineName: string,
    airlineIcaoUniqueCode: string,
    airlineCountry: string,
    fromAirportName: string,
    fromAirportCity: string,
    fromAirportCountry: string,
    fromAirportIcaoUniqueCode: string,
    fromAirportAltitude: string,
    toAirportName: string,
    toAirportCity: string,
    toAirportCountry: string,
    toAirportIcaoUniqueCode: string,
    toAirportAltitude: string)

  /** The keys of an entry, in the order of the fields of `Route`; the first line starts with `-`. */
  const EntryKeys: seq<string> := [
    "- airline_name", IcaoKey, "  airline_country",
    "  from_airport_name", "  from_airport_city", "  from_airport_country",
    "  from_airport_icao_unique_code", "  from_airport_altitude",
    ToNameKey, ToCityKey, ToCountryKey, ToCodeKey, ToAltitudeKey]

  function EntryValues(e: RouteEntry): seq<string>
  {
    [e.airlineName, e.airlineIcaoUniqueCode, e.airlineCountry,
     e.fromAirportName, e.fromAirportCity, e.fromAirportCountry,
     e.fromAirportIcaoUniqueCode, e.fromAirportAltitude,
     e.toAirportName, e.toAirportCity, e.toAirportCountry,
     e.toAirportIcaoUniqueCode, e.toAirportAltitude]
  }

  /** The lines of an entry. */
  function EntryLines(e: RouteEntry): (r: seq<string>)
    ensures |r| == |EntryKeys|
  {
    seq(|EntryKeys|, i requires 0 <= i < |EntryKeys| => KeyLine(EntryKeys[i], EntryValues(e)[i]))
  }

  /** The items the loop makes of them. */
  function EntryItems(e: RouteEntry): (r: seq<Item>)
    ensures |r| == |EntryKeys|
  {
    seq(|EntryKeys|, i requires 0 <= i < |EntryKeys| =>
      KeyValue(i == 0, EntryKeys[i], Some(" " + EntryValues(e)[i])))
  }

  /** The lines of several entries, one after the other. */
  function EntriesLines(es: seq<RouteEntry>): seq<string>
  {
    if es == [] then [] else EntriesLines(es[..|es| - 1]) + EntryLines(es[|es| - 1])
  }

  function EntriesItems(es: seq<RouteEntry>): seq<Item>
  {
    if es == [] then [] else EntriesItems(es[..|es| - 1]) + EntryItems(es[|es| - 1])
  }

  /**
   * An entry the handler of question `q` reads as intended: every value fits
   * on its line; for question one neither the airline name nor its code is
   * `Canada` (either would add a label of its own); for question two the
   * country is long enough for the quote handling.
   */
  predicate EntryFits(q: Question, e: RouteEntry)
  {
    && (forall i :: 0 <= i < |EntryValues(e)| ==> Plain(EntryValues(e)[i]))
    && (q == One ==> e.airlineName != "Canada" && e.airlineIcaoUniqueCode != "Canada")
    && (q == Two ==> Cleanable(" " + e.toAirportCountry))
  }

  /**
   * The labels an entry stands for: question one, its airline when it flies
   * to Canada; question two, its cleaned destination country; question three,
   * its destination airport.
   */
  function EntryLabels(q: Question, e: RouteEntry): seq<string>
    requires q == Two ==> Cleanable(" " + e.toAirportCountry)
  {
    match q
    case One =>
      if e.toAirportCountry == "Canada" then [AirlineLabel(e.airlineName, e.airlineIcaoUniqueCode)] else []
    case Two => [CountryLabel(CountryValue(" " + e.toAirportCountry))]
    case Three => [AirportLabel(e.toAirportName, e.toAirportIcaoUniqueCode, e.toAirportCity, e.toAirportCountry)]
  }

  function AllLabels(q: Question, es: seq<RouteEntry>): seq<string>
    requires forall i :: 0 <= i < |es| ==> EntryFits(q, es[i])
  {
    if es == [] then []
    else
      var e := es[|es| - 1];
      assert EntryFits(q, e);
      AllLabels(q, es[..|es| - 1]) + EntryLabels(q, e)
  }

  lemma EntryKeysText()
    ensures forall i :: 0 <= i < |EntryKeys| ==> KeyText(EntryKeys[i])
    ensures EntryKeys[0][0] == '-' && forall i :: 1 <= i < |EntryKeys| ==> EntryKeys[i][0] != '-'
  {
    EntryKeysAreText();
  }

  lemma EntryKeysAreText()
    ensures forall i :: 0 <= i < |EntryKeys| ==> KeyText(EntryKeys[i])
  {
  }

  /** The loop reads the lines of an entry as its keys and values. */
  lemma EntryRead(q: Question, e: RouteEntry)
    requires EntryFits(q, e)
    ensures ScannableLines(q, EntryLines(e))
    ensures forall i :: 0 <= i < |EntryLines(e)| ==> Parses(EntryLines(e)[i])
    ensures ReadLines(EntryLines(e)) == EntryItems(e)
    ensures UsableItems(q, EntryItems(e))
  {
    EntryLinesRead(q, e);
    EntryLinesScannable(q, e);
  }

  /** Each line of an entry is a key line that reads back as its item. */
  lemma EntryLinesRead(q: Question, e: RouteEntry)
    requires EntryFits(q, e)
    ensures forall i :: 0 <= i < |EntryLines(e)| ==>
      NUL !in EntryLines(e)[i] && Parses(EntryLines(e)[i]) && !IsBlank(EntryLines(e)[i])
      && ReadLine(EntryLines(e)[i]) == EntryItems(e)[i]
  {
    EntryKeysText();
    var lines := EntryLines(e);
    forall i | 0 <= i < |lines|
      ensures NUL !in lines[i] && Parses(lines[i]) && !IsBlank(lines[i])
      ensures ReadLine(lines[i]) == EntryItems(e)[i]
    {
      KeyLineRead(EntryKeys[i], EntryValues(e)[i]);
    }
  }

  lemma EntryLinesScannable(q: Question, e: RouteEntry)
    requires EntryFits(q, e)
    ensures ScannableLines(q, EntryLines(e))
  {
    EntryKeysText();
    CountryKeyAt();
    var lines := EntryLines(e);
    forall i | 0 <= i < |lines|
      ensures Scannable(q, lines[i])
    {
      var key, value := EntryKeys[i], EntryValues(e)[i];
      KeyLineParses(key, value);
      assert lines[i] == KeyLine(key, value) && lines[i][0] == key[0];
      assert key == ToCountryKey ==> value == e.toAirportCountry;
    }
  }

  /** Only the eleventh line of an entry carries the destination-country key. */
  lemma CountryKeyAt()
    ensures forall i :: 0 <= i < |EntryKeys| && EntryKeys[i] == ToCountryKey ==> i == 10
  {
  }


  /** The items of the two airline lines. */
  function AirlineItems(name: string, code: string): seq<Item>
  {
    [KeyValue(true, "- airline_name", Some(" " + name)), KeyItem(IcaoKey, code)]
  }

  /** The airline lines set the name (and for question one the code) and add no label. */
  lemma AirlineScan(q: Question, cur: Current, name: string, code: string)
    requires q == One ==> name != "Canada" && code != "Canada"
    ensures UsableItems(q, AirlineItems(name, code))
    ensures ScanItems(q, cur, AirlineItems(name, code)).route.airlineName == name
    ensures q == One ==> ScanItems(q, cur, AirlineItems(name, code)).route.airlineCode == code
    ensures ScanItems(q, cur, AirlineItems(name, code)).labels == []
  {
    var items := AirlineItems(name, code);
    var c := cur.(airlineName := name);
    AirlineStep(q, cur, name);
    assert items[..0] == [];
    ScanItemsPrefix(q, cur, items, 0, State(cur, []), Outcome(c, None));
    if q == One {
      IcaoStepOne(c, code);
      ScanItemsPrefix(q, cur, items, 1, State(c, []), Outcome(c.(airlineCode := code), None));
    } else {
      PassiveKey(q, c, IcaoKey, code);
      ScanItemsPrefix(q, cur, items, 1, State(c, []), Outcome(c, None));
    }
    assert items[..2] == items;
  }

  /** The first two lines of an entry are read as its airline items. */
  lemma AirlinePart(q: Question, cur: Current, e: RouteEntry)
    requires EntryFits(q, e)
    ensures UsableItems(q, EntryItems(e)[..2])
    ensures ScanItems(q, cur, EntryItems(e)[..2]).route.airlineName == e.airlineName
    ensures q == One ==> ScanItems(q, cur, EntryItems(e)[..2]).route.airlineCode == e.airlineIcaoUniqueCode
    ensures ScanItems(q, cur, EntryItems(e)[..2]).labels == []
  {
    assert EntryItems(e)[..2] == AirlineItems(e.airlineName, e.airlineIcaoUniqueCode);
    AirlineScan(q, cur, e.airlineName, e.airlineIcaoUniqueCode);
  }

  /** The lines between the airline and the destination change nothing. */
  lemma OriginPart(q: Question, cur: Current, e: RouteEntry)
    requires EntryFits(q, e)
    ensures UsableItems(q, EntryItems(e)[2..8])
    ensures ScanItems(q, cur, EntryItems(e)[2..8]) == State(cur, [])
  {
    var items := EntryItems(e)[2..8];
    forall i | 0 <= i < |items|
      ensures items[i].KeyValue? && UsableItem(q, items[i])
      ensures StepParsed(q, cur, items[i].dash, items[i].key, items[i].value) == Outcome(cur, None)
    {
      assert items[i] == EntryItems(e)[i + 2];
      PassiveKey(q, cur, EntryKeys[i + 2], EntryValues(e)[i + 2]);
    }
    ScanPassive(q, cur, items);
  }

  /** Acting on the first `k + 1` items, the last of which is not blank. */
  lemma ScanItemsPrefix(q: Question, s: Current, items: seq<Item>, k: nat, before: State, after: Outcome)
    requires UsableItems(q, items) && k < |items| && items[k].KeyValue?
    requires ScanItems(q, s, items[..k]) == before
    requires StepParsed(q, before.route, items[k].dash, items[k].key, items[k].value) == after
    ensures UsableItems(q, items[..k + 1])
    ensures ScanItems(q, s, items[..k + 1]) == State(after.route, before.labels + Emitted(after.added))
  {
    assert items[..k + 1][..k] == items[..k];
  }

  /** A key line as the loop reads it. */
  function KeyItem(key: string, value: string): Item
  {
    KeyValue(false, key, Some(" " + value))
  }

  /** The items of the five destination lines. */
  function DestinationItems(name: string, city: string, country: string, code: string, altitude: string): seq<Item>
  {
    [KeyItem(ToNameKey, name), KeyItem(ToCityKey, city), KeyItem(ToCountryKey, country),
     KeyItem(ToCodeKey, code), KeyItem(ToAltitudeKey, altitude)]
  }

  /** The destination lines of an entry are read as its destination items. */
  lemma EntryDestination(q: Question, e: RouteEntry)
    requires EntryFits(q, e)
    ensures EntryItems(e)[8..] == DestinationItems(e.toAirportName, e.toAirportCity,
      e.toAirportCountry, e.toAirportIcaoUniqueCode, e.toAirportAltitude)
  {
  }

  /**
   * Questions one and two: the name and city lines change nothing, then the
   * country line takes its step `o`.
   */
  lemma DestinationHead(q: Question, cur: Current, name: string, city: string, country: string, code: string, altitude: string, o: Outcome)
    requires q != Three
    requires UsableItem(q, KeyValue(false, ToCountryKey, Some(" " + country)))
    requires StepParsed(q, cur, false, ToCountryKey, Some(" " + country)) == o
    ensures UsableItems(q, DestinationItems(name, city, country, code, altitude))
    ensures ScanItems(q, cur, DestinationItems(name, city, country, code, altitude)[..3])
      == State(o.route, Emitted(o.added))
  {
    var d := DestinationItems(name, city, country, code, altitude);
    DestinationUsable(q, name, city, country, code, altitude);
    DestinationPassive(q, cur, name, city, country, code, altitude);
    assert d[2] == KeyValue(false, ToCountryKey, Some(" " + country));
    ScanItemsPrefix(q, cur, d, 2, State(cur, []), o);
    assert [] + Emitted(o.added) == Emitted(o.added);
  }

  /** Questions one and two: the name and city lines change nothing. */
  lemma DestinationPassive(q: Question, cur: Current, name: string, city: string, country: string, code: string, altitude: string)
    requires q != Three
    requires UsableItems(q, DestinationItems(name, city, country, code, altitude))
    ensures ScanItems(q, cur, DestinationItems(name, city, country, code, altitude)[..2]) == State(cur, [])
  {
    var d := DestinationItems(name, city, country, code, altitude);
    PassiveKey(q, cur, ToNameKey, name);
    PassiveKey(q, cur, ToCityKey, city);
    assert d[..0] == [];
    ScanItemsPrefix(q, cur, d, 0, State(cur, []), Outcome(cur, None));
    ScanItemsPrefix(q, cur, d, 1, State(cur, []), Outcome(cur, None));
  }

  lemma DestinationUsable(q: Question, name: string, city: string, country: string, code: string, altitude: string)
    requires q != Three
    requires UsableItem(q, KeyValue(false, ToCountryKey, Some(" " + country)))
    ensures UsableItems(q, DestinationItems(name, city, country, code, altitude))
  {
    var cur := Current("", "", "", "", "", "");
    PassiveKey(q, cur, ToNameKey, name);
    PassiveKey(q, cur, ToCityKey, city);
    PassiveKey(q, cur, ToCodeKey, code);
    PassiveKey(q, cur, ToAltitudeKey, altitude);
  }

  /** Questions one and two: the code and altitude lines change nothing. */
  lemma DestinationTail(q: Question, cur: Current, name: string, city: string, country: string, code: string, altitude: string, st: State)
    requires q != Three
    requires UsableItems(q, DestinationItems(name, city, country, code, altitude))
    requires ScanItems(q, cur, DestinationItems(name, city, country, code, altitude)[..3]) == st
    ensures ScanItems(q, cur, DestinationItems(name, city, country, code, altitude)).labels == st.labels
  {
    var d := DestinationItems(name, city, country, code, altitude);
    PassiveKey(q, st.route, ToCodeKey, code);
    ScanItemsPrefix(q, cur, d, 3, st, Outcome(st.route, None));
    assert st.labels + Emitted(None) == st.labels;
    PassiveKey(q, st.route, ToAltitudeKey, altitude);
    ScanItemsPrefix(q, cur, d, 4, State(st.route, st.labels), Outcome(st.route, None));
    assert d[..5] == d;
  }

  /** Question one: the country line adds the airline read before, when it reads `Canada`. */
  lemma DestinationOne(cur: Current, name: string, city: string, country: string, code: string, altitude: string)
    ensures UsableItems(One, DestinationItems(name, city, country, code, altitude))
    ensures ScanItems(One, cur, DestinationItems(name, city, country, code, altitude)).labels
      == Emitted(CanadaAirline(cur, country))
  {
    var o := Outcome(cur.(toCountry := country), CanadaAirline(cur, country));
    CountryStepOne(cur, country);
    DestinationHead(One, cur, name, city, country, code, altitude, o);
    DestinationTail(One, cur, name, city, country, code, altitude, State(o.route, Emitted(o.added)));
  }

  /** Question two: the country line adds the cleaned country. */
  lemma DestinationTwo(cur: Current, name: string, city: string, country: string, code: string, altitude: string)
    requires Cleanable(" " + country)
    ensures UsableItems(Two, DestinationItems(name, city, country, code, altitude))
    ensures ScanItems(Two, cur, DestinationItems(name, city, country, code, altitude)).labels
      == [CountryLabel(CountryValue(" " + country))]
  {
    var added := CountryLabel(CountryValue(" " + country));
    var o := Outcome(cur.(toCountry := CountryValue(" " + country)), Some(added));
    CountryStepTwo(cur, country);
    DestinationHead(Two, cur, name, city, country, code, altitude, o);
    DestinationTail(Two, cur, name, city, country, code, altitude, State(o.route, [added]));
  }

  /** Question three: the name, city and country lines set their fields. */
  lemma DestinationThreeHead(cur: Current, name: string, city: string, country: string, code: string, altitude: string)
    ensures UsableItems(Three, DestinationItems(name, city, country, code, altitude))
    ensures ScanItems(Three, cur, DestinationItems(name, city, country, code, altitude)[..3])
      == State(cur.(toName := name, toCity := city, toCountry := country), [])
  {
    var d := DestinationItems(name, city, country, code, altitude);
    var c1 := cur.(toName := name);
    var c2 := c1.(toCity := city);
    var c3 := c2.(toCountry := country);
    FieldStepsThree(cur, name);
    FieldStepsThree(c1, city);
    FieldStepsThree(c2, country);
    CodeStepThree(c3, code);
    PassiveKey(Three, c3.(toCode := code), ToAltitudeKey, altitude);
    assert d[..0] == [];
    ScanItemsPrefix(Three, cur, d, 0, State(cur, []), Outcome(c1, None));
    ScanItemsPrefix(Three, cur, d, 1, State(c1, []), Outcome(c2, None));
    ScanItemsPrefix(Three, cur, d, 2, State(c2, []), Outcome(c3, None));
  }

  /** Question three: name, city and country are read, then the code line adds the airport. */
  lemma DestinationThree(cur: Current, name: string, city: string, country: string, code: string, altitude: string)
    ensures UsableItems(Three, DestinationItems(name, city, country, code, altitude))
    ensures ScanItems(Three, cur, DestinationItems(name, city, country, code, altitude)).labels
      == [AirportLabel(name, code, city, country)]
  {
    var d := DestinationItems(name, city, country, code, altitude);
    var c3 := cur.(toName := name, toCity := city, toCountry := country);
    var c := c3.(toCode := code);
    var labels := [AirportLabel(name, code, city, country)];
    DestinationThreeHead(cur, name, city, country, code, altitude);
    CodeStepThree(c3, code);
    ScanItemsPrefix(Three, cur, d, 3, State(c3, []), Outcome(c, Some(labels[0])));
    PassiveKey(Three, c, ToAltitudeKey, altitude);
    ScanItemsPrefix(Three, cur, d, 4, State(c, labels), Outcome(c, None));
    assert d[..5] == d;
  }

  /**
   * The destination lines add the one label of the entry: question one the
   * airline already read, when the country is `Canada`; question two the
   * cleaned country; question three the airport, once its code is read.
   */
  lemma DestinationPart(q: Question, cur: Current, e: RouteEntry)
    requires EntryFits(q, e)
    ensures UsableItems(q, EntryItems(e)[8..])
    ensures q == One ==> ScanItems(q, cur, EntryItems(e)[8..]).labels == Emitted(CanadaAirline(cur, e.toAirportCountry))
    ensures q != One ==> ScanItems(q, cur, EntryItems(e)[8..]).labels == EntryLabels(q, e)
  {
    EntryDestination(q, e);
    match q
    case One => DestinationOne(cur, e.toAirportName, e.toAirportCity, e.toAirportCountry, e.toAirportIcaoUniqueCode, e.toAirportAltitude);
    case Two => DestinationTwo(cur, e.toAirportName, e.toAirportCity, e.toAirportCountry, e.toAirportIcaoUniqueCode, e.toAirportAltitude);
    case Three => DestinationThree(cur, e.toAirportName, e.toAirportCity, e.toAirportCountry, e.toAirportIcaoUniqueCode, e.toAirportAltitude);
  }

  /** An entry adds exactly the labels it stands for, whatever route came before it. */
  lemma EntryScan(q: Question, cur: Current, e: RouteEntry)
    requires EntryFits(q, e)
    ensures UsableItems(q, EntryItems(e))
    ensures ScanItems(q, cur, EntryItems(e)).labels == EntryLabels(q, e)
  {
    EntryRead(q, e);
    var items := EntryItems(e);
    AirlinePart(q, cur, e);
    var s1 := ScanItems(q, cur, items[..2]);
    OriginPart(q, s1.route, e);
    ScanSplit(q, cur, items[..8], 2);
    assert items[..8][..2] == items[..2] && items[..8][2..] == items[2..8];
    DestinationPart(q, s1.route, e);
    ScanSplit(q, cur, items, 8);
    if q == One {
      assert EntryLabels(q, e) == Emitted(CanadaAirline(s1.route, e.toAirportCountry));
    }
  }

  /** Acting on `items` is acting on its first `k` items and then on the rest. */
  lemma ScanSplit(q: Question, s: Current, items: seq<Item>, k: nat)
    requires UsableItems(q, items) && k <= |items|
    ensures UsableItems(q, items[..k]) && UsableItems(q, items[k..])
    ensures ScanItems(q, s, items).route == ScanItems(q, ScanItems(q, s, items[..k]).route, items[k..]).route
    ensures ScanItems(q, s, items).labels
      == ScanItems(q, s, items[..k]).labels + ScanItems(q, ScanItems(q, s, items[..k]).route, items[k..]).labels
  {
    assert UsableItems(q, items[k..]) by {
      assert forall i :: 0 <= i < |items[k..]| ==> items[k..][i] == items[k + i];
    }
    ScanItemsAppend(q, s, items[..k], items[k..]);
    assert items[..k] + items[k..] == items;
  }

  /** The loop reads the lines of several entries as their items, one entry after the other. */
  lemma {:induction false} EntriesRead(q: Question, es: seq<RouteEntry>)
    requires forall i :: 0 <= i < |es| ==> EntryFits(q, es[i])
    ensures ScannableLines(q, EntriesLines(es))
    ensures forall i :: 0 <= i < |EntriesLines(es)| ==> Parses(EntriesLines(es)[i])
    ensures ReadLines(EntriesLines(es)) == EntriesItems(es)
    ensures UsableItems(q, EntriesItems(es))
  {
    if es != [] {
      var init, e := es[..|es| - 1], es[|es| - 1];
      assert EntryFits(q, e);
      EntriesRead(q, init);
      EntryRead(q, e);
      ReadLinesAppend(EntriesLines(init), EntryLines(e));
      ScanItemsAppend(q, Blank, EntriesItems(init), EntryItems(e));
      ScannableConcat(q, EntriesLines(init), EntryLines(e));
    }
  }

  lemma {:induction false} EntriesLabels(q: Question, cur: Current, es: seq<RouteEntry>)
    requires forall i :: 0 <= i < |es| ==> EntryFits(q, es[i])
    ensures UsableItems(q, EntriesItems(es))
    ensures ScanItems(q, cur, EntriesItems(es)).labels == AllLabels(q, es)
  {
    EntriesRead(q, es);
    if es != [] {
      var init, e := es[..|es| - 1], es[|es| - 1];
      assert EntryFits(q, e);
      EntriesLabels(q, cur, init);
      EntryScan(q, ScanItems(q, cur, EntriesItems(init)).route, e);
      ScanItemsAppend(q, cur, EntriesItems(init), EntryItems(e));
    }
  }

  /**
   * A routes file made of a first line and then route entries: the handler
   * adds, in file order, exactly the labels the entries stand for.
   */
  lemma FileLabels(q: Question, first: string, es: seq<RouteEntry>)
    requires forall i :: 0 <= i < |es| ==> EntryFits(q, es[i])
    ensures ScannableFile(q, [first] + EntriesLines(es))
    ensures Labels(q, [first] + EntriesLines(es)) == AllLabels(q, es)
  {
    assert ([first] + EntriesLines(es))[1..] == EntriesLines(es);
    EntriesRead(q, es);
    EntriesLabels(q, Blank, es);
  }

  // ---------------------------------------------------------------------
  // The word list in `strcmp` order
  // ---------------------------------------------------------------------

  /** `add_inorder`: the word goes before the first word that is greater. */
  function InsertInOrder(w: string, s: seq<string>): (r: seq<string>)
    ensures |r| == |s| + 1
  {
    if s == [] || LexLess(w, s[0]) then [w] + s else [s[0]] + InsertInOrder(w, s[1..])
  }

  function AddLabel(list: seq<string>, added: Option<string>): seq<string>
  {
    if added.None? then list else InsertInOrder(added.value, list)
  }

  lemma {:induction false} InsertInOrderPermutes(w: string, s: seq<string>)
    ensures multiset(InsertInOrder(w, s)) == multiset(s) + multiset{w}
  {
    if s != [] && !LexLess(w, s[0]) {
      InsertInOrderPermutes(w, s[1..]);
      assert InsertInOrder(w, s) == [s[0]] + InsertInOrder(w, s[1..]);
      assert s == [s[0]] + s[1..];
    }
  }

  /** Inserting keeps the list in `strcmp` order and adds exactly the one word. */
  lemma {:induction false} InsertInOrderSpec(w: string, s: seq<string>)
    requires LexSorted(s)
    ensures LexSorted(InsertInOrder(w, s))
    ensures multiset(InsertInOrder(w, s)) == multiset(s) + multiset{w}
  {
    InsertInOrderPermutes(w, s);
    var r := InsertInOrder(w, s);
    if s == [] {
    } else if LexLess(w, s[0]) {
      forall j | 1 <= j < |r|
        ensures !LexLess(r[j], w)
      {
        assert r[j] == s[j - 1];
        if LexLess(s[j - 1], w) {
          LexLessTransitive(s[j - 1], w, s[0]);
          LexLessIrreflexive(s[0]);
        }
      }
    } else {
      var t := InsertInOrder(w, s[1..]);
      InsertInOrderSpec(w, s[1..]);
      assert r == [s[0]] + t;
      forall j | 1 <= j < |r|
        ensures !LexLess(r[j], s[0])
      {
        assert r[j] == t[j - 1];
        assert r[j] in multiset(t);
        if r[j] != w {
          assert r[j] in multiset(s[1..]);
          var m :| 0 <= m < |s[1..]| && s[1..][m] == r[j];
          assert s[m + 1] == r[j];
        }
      }
    }
  }

  /**
   * A list in `strcmp` order is fixed by the words it holds: where exactly
   * `add_inorder` places a word among equal ones cannot show.
   */
  lemma {:induction false} SortedUnique(s: seq<string>, t: seq<string>)
    requires LexSorted(s) && LexSorted(t) && multiset(s) == multiset(t)
    ensures s == t
  {
    if s != [] {
      assert |t| == |s| by {
        assert |multiset(t)| == |multiset(s)|;
      }
      SortedHeads(s, t);
      assert s == [s[0]] + s[1..] && t == [t[0]] + t[1..];
      assert multiset(s) == multiset{s[0]} + multiset(s[1..]);
      assert multiset(t) == multiset{t[0]} + multiset(t[1..]);
      assert multiset(s[1..]) == multiset(s) - multiset{s[0]};
      assert multiset(t[1..]) == multiset(t) - multiset{t[0]};
      assert LexSorted(s[1..]) && LexSorted(t[1..]);
      SortedUnique(s[1..], t[1..]);
    }
  }

  /** Two sorted lists of the same words start with the same word. */
  lemma SortedHeads(s: seq<string>, t: seq<string>)
    requires LexSorted(s) && LexSorted(t) && multiset(s) == multiset(t) && s != [] && t != []
    ensures s[0] == t[0]
  {
    assert s[0] in multiset(t) && t[0] in multiset(s);
    var j :| 0 <= j < |t| && t[j] == s[0];
    var i :| 0 <= i < |s| && s[i] == t[0];
    LexLessIrreflexive(s[0]);
    LexLessIrreflexive(t[0]);
    assert !LexLess(t[j], t[0]) && !LexLess(s[i], s[0]);
    LexLessTrichotomy(s[0], t[0]);
  }

  // ---------------------------------------------------------------------
  // The handlers' scanning loops
  // ---------------------------------------------------------------------

  /** The `Route` record of a handler: the fields it overwrites with `strcpy`. */
  class Route {
    var airlineName: string
    var airlineIcaoUniqueCode: string
    var toAirportName: string
    var toAirportCity: string
    var toAirportCountry: string
    var toAirportIcaoUniqueCode: string

    constructor ()
      ensures Fields() == Blank
    {
      airlineName := "";
      airlineIcaoUniqueCode := "";
      toAirportName := "";
      toAirportCity := "";
      toAirportCountry := "";
      toAirportIcaoUniqueCode := "";
    }

    function Fields(): Current
      reads this
    {
      Current(airlineName, airlineIcaoUniqueCode, toAirportName, toAirportCity,
        toAirportCountry, toAirportIcaoUniqueCode)
    }
  }

  /** `removeWhitespace` on the value, copied into a terminated buffer. */
  method Unindent(value: string) returns (r: string)
    requires value != [] && NUL !in value
    ensures r == value[1..]
  {
    var buf := new char[|value| + 1](i => if 0 <= i < |value| then value[i] else NUL);
    assert buf[..|value|] == value;
    CStrOf(buf[..], value);
    ShiftedLeftDropsFirst(buf[..]);
    RemoveWhitespace(buf);
    r := CStr(buf[..]);
  }

  /** The question-two country clean-up on the value, copied into a terminated buffer. */
  method CleanedCountry(value: string) returns (r: string)
    requires Cleanable(value) && NUL !in value
    ensures r == CountryValue(value)
  {
    var buf := new char[|value| + 1](i => if 0 <= i < |value| then value[i] else NUL);
    assert buf[..|value|] == value;
    CStrOf(buf[..], value);
    CleanCountry(buf);
    r := CStr(buf[..]);
  }

  /** The body of the question-one loop for a line that is not blank. */
  method ScanLineOne(route: Route, line: string, airlines: seq<string>) returns (result: seq<string>)
    requires Scannable(One, line)
    modifies route
    ensures route.Fields() == Step(One, old(route.Fields()), line).route
    ensures result == AddLabel(airlines, Step(One, old(route.Fields()), line).added)
  {
    ParseLineChars(line);
    var first := Strtok(line, ':');
    var key := first.value.0;
    var value := Strtok(first.value.1, '\n').value.0;
    if line[0] == '-' {
      value := Unindent(value);
      route.airlineName := value;
    } else if key == IcaoKey {
      value := Unindent(value);
      route.airlineIcaoUniqueCode := value;
    } else if key == ToCountryKey {
      value := Unindent(value);
      route.toAirportCountry := value;
    }
    result := airlines;
    if value == "Canada" {
      result := InsertInOrder(AirlineLabel(route.airlineName, route.airlineIcaoUniqueCode), airlines);
    }
  }

  /** The body of the question-two loop for a line that is not blank. */
  method ScanLineTwo(route: Route, line: string, airlines: seq<string>) returns (result: seq<string>)
    requires Scannable(Two, line)
    modifies route
    ensures route.Fields() == Step(Two, old(route.Fields()), line).route
    ensures result == AddLabel(airlines, Step(Two, old(route.Fields()), line).added)
  {
    ParseLineChars(line);
    var first := Strtok(line, ':');
    var key := first.value.0;
    var value := Strtok(first.value.1, '\n');
    result := airlines;
    if line[0] == '-' {
      var name := Unindent(value.value.0);
      route.airlineName := name;
    } else if key == ToCountryKey {
      var country := CleanedCountry(value.value.0);
      route.toAirportCountry := country;
      result := InsertInOrder(CountryLabel(route.toAirportCountry), airlines);
    }
  }

  /** The body of the question-three loop for a line that is not blank. */
  method ScanLineThree(route: Route, line: string, airlines: seq<string>) returns (result: seq<string>)
    requires Scannable(Three, line)
    modifies route
    ensures route.Fields() == Step(Three, old(route.Fields()), line).route
    ensures result == AddLabel(airlines, Step(Three, old(route.Fields()), line).added)
  {
    ParseLineChars(line);
    var first := Strtok(line, ':');
    var key := first.value.0;
    var value := Strtok(first.value.1, '\n');
    result := airlines;
    if line[0] == '-' {
      var name := Unindent(value.value.0);
      route.airlineName := name;
    } else if key == ToNameKey {
      var name := Unindent(value.value.0);
      route.toAirportName := name;
    } else if key == ToCityKey {
      var city := Unindent(value.value.0);
      route.toAirportCity := city;
    } else if key == ToCountryKey {
      var country := Unindent(value.value.0);
      route.toAirportCountry := country;
    } else if key == ToCodeKey {
      var code := Unindent(value.value.0);
      route.toAirportIcaoUniqueCode := code;
      var airport := AirportLabel(route.toAirportName, route.toAirportIcaoUniqueCode,
        route.toAirportCity, route.toAirportCountry);
      result := InsertInOrder(airport, airlines);
    }
  }

  /**
   * The body of the scanning loop for a line that is not blank: the route
   * fields move on by one step, and the list stays in `strcmp` order and
   * gains the label the line adds.
   */
  method ScanLine(q: Question, route: Route, line: string, airlines: seq<string>) returns (result: seq<string>)
    requires Scannable(q, line) && LexSorted(airlines)
    modifies route
    ensures route.Fields() == Step(q, old(route.Fields()), line).route
    ensures LexSorted(result)
    ensures multiset(result) == multiset(airlines) + multiset(Emitted(Step(q, old(route.Fields()), line).added))
  {
    ghost var o := Step(q, route.Fields(), line);
    match q {
      case One => result := ScanLineOne(route, line, airlines);
      case Two => result := ScanLineTwo(route, line, airlines);
      case Three => result := ScanLineThree(route, line, airlines);
    }
    if o.added.Some? {
      InsertInOrderSpec(o.added.value, airlines);
    }
  }

  /**
   * One pass of the scanning loop: a blank line is skipped, any other line
   * is read; the route and the list then stand as after the first `i + 1`
   * lines.
   */
  method ReadNext(q: Question, route: Route, lines: seq<string>, i: nat, airlines: seq<string>)
    returns (result: seq<string>)
    requires ScannableLines(q, lines) && i < |lines| && LexSorted(airlines)
    requires ScannableLines(q, lines[..i]) && route.Fields() == ScanLines(q, Blank, lines[..i]).route
    requires multiset(airlines) == multiset(ScanLines(q, Blank, lines[..i]).labels)
    modifies route
    ensures ScannableLines(q, lines[..i + 1])
    ensures route.Fields() == ScanLines(q, Blank, lines[..i + 1]).route
    ensures LexSorted(result)
    ensures multiset(result) == multiset(ScanLines(q, Blank, lines[..i + 1]).labels)
  {
    ScanNext(q, Blank, lines, i);
    result := airlines;
    if !IsBlank(lines[i]) {
      result := ScanLine(q, route, lines[i], airlines);
    }
  }

  /**
   * The scanning loop of a handler: skip the first line, then every blank
   * line, and read the others. The word list ends up in `strcmp` order and
   * holds exactly the labels the lines add.
   */
  method ScanFile(q: Question, file: seq<string>) returns (airlines: seq<string>)
    requires ScannableFile(q, file)
    ensures LexSorted(airlines)
    ensures multiset(airlines) == multiset(Labels(q, file))
  {
    airlines := [];
    if file == [] {
      return;
    }
    var lines := file[1..];
    var route := new Route();
    var i := 0;
    assert lines[..0] == [];
    while i < |lines|
      invariant 0 <= i <= |lines|
      invariant ScannableLines(q, lines[..i])
      invariant route.Fields() == ScanLines(q, Blank, lines[..i]).route
      invariant LexSorted(airlines)
      invariant multiset(airlines) == multiset(ScanLines(q, Blank, lines[..i]).labels)
    {
      ScanNext(q, Blank, lines, i);
      airlines := ReadNext(q, route, lines, i, airlines);
      i := i + 1;
    }
    assert lines[..i] == lines;
  }
}
