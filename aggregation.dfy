/**
 * The second half of each question handler of the YAML aggregation tool
 * (a3/route_manager.c): the word list the scanner built is walked once and
 * every block of equal adjacent labels becomes one entry `label + count`,
 * which is placed into a ranked result list; `exportCSV` then writes a
 * header and the first N entries. `main` picks the handler from the
 * question argument.
 */
module Aggregation {
  import opened Wrappers
  import opened Text
  import Ranking
  import YamlScanner

  // ---------------------------------------------------------------------
  // Run-length counting
  // ---------------------------------------------------------------------

  /** One maximal block of equal adjacent words and its length. */
  datatype Run = Run(word: string, count: nat)

  /** Counts one more word: it extends the last run when it holds the same word, else starts a run. */
  function Push(runs: seq<Run>, w: string): (r: seq<Run>)
    ensures r != [] && r[|r| - 1].word == w && |r| <= |runs| + 1
  {
    if runs != [] && runs[|runs| - 1].word == w then
      runs[..|runs| - 1] + [Run(w, runs[|runs| - 1].count + 1)]
    else runs + [Run(w, 1)]
  }

  /** The runs of `words`, in order: equal adjacent words are counted together. */
  function Runs(words: seq<string>): (r: seq<Run>)
    ensures |r| <= |words|
    ensures words != [] ==> r != [] && r[|r| - 1].word == words[|words| - 1]
  {
    if words == [] then [] else Push(Runs(words[..|words| - 1]), words[|words| - 1])
  }

  function Repeat(w: string, n: nat): (r: seq<string>)
    ensures |r| == n && forall i :: 0 <= i < n ==> r[i] == w
  {
    seq(n, _ => w)
  }

  /** The word list a sequence of runs stands for. */
  function Expand(runs: seq<Run>): seq<string>
  {
    if runs == [] then []
    else Expand(runs[..|runs| - 1]) + Repeat(runs[|runs| - 1].word, runs[|runs| - 1].count)
  }

  /** The sum of the counts. */
  function Counted(runs: seq<Run>): nat
  {
    if runs == [] then 0 else Counted(runs[..|runs| - 1]) + runs[|runs| - 1].count
  }

  /** Every run counts at least one word and neighbouring runs hold different words. */
  predicate Canonical(runs: seq<Run>)
  {
    && (forall i :: 0 <= i < |runs| ==> runs[i].count >= 1)
    && (forall i :: 0 < i < |runs| ==> runs[i - 1].word != runs[i].word)
  }

  /** Runs are maximal: each counts at least one word and no two neighbours could be merged. */
  lemma {:induction false} RunsCanonical(words: seq<string>)
    ensures Canonical(Runs(words))
  {
    if words != [] {
      var front := words[..|words| - 1];
      RunsCanonical(front);
    }
  }

  /** Counting loses nothing: expanding the runs gives back the word list. */
  lemma {:induction false} RunsExpand(words: seq<string>)
    ensures Expand(Runs(words)) == words
  {
    if words != [] {
      var front, w := words[..|words| - 1], words[|words| - 1];
      SplitLast(words);
      RunsExpand(front);
      ExpandPush(Runs(front), w);
    }
  }

  lemma SplitLast<T>(s: seq<T>)
    requires s != []
    ensures s == s[..|s| - 1] + [s[|s| - 1]]
  {
  }

  /** Pushing a word adds exactly that word to the expansion. */
  lemma ExpandPush(runs: seq<Run>, w: string)
    ensures Expand(Push(runs, w)) == Expand(runs) + [w]
  {
    var r := Push(runs, w);
    if runs != [] && runs[|runs| - 1].word == w {
      var init, c := runs[..|runs| - 1], runs[|runs| - 1].count;
      assert r[..|r| - 1] == init;
      assert Expand(r) == Expand(init) + Repeat(w, c + 1);
      assert Expand(runs) == Expand(init) + Repeat(w, c);
      assert Repeat(w, c + 1) == Repeat(w, c) + [w];
    } else {
      assert r[..|r| - 1] == runs;
      assert Repeat(w, 1) == [w];
    }
  }

  lemma {:induction false} ExpandLength(runs: seq<Run>)
    ensures |Expand(runs)| == Counted(runs)
  {
    if runs != [] {
      ExpandLength(runs[..|runs| - 1]);
    }
  }

  /** The counts add up to the number of words counted. */
  lemma RunsTotal(words: seq<string>)
    ensures Counted(Runs(words)) == |words|
  {
    RunsExpand(words);
    ExpandLength(Runs(words));
  }

  /** Appending a block of a new word adds exactly one run. */
  lemma {:induction false} RunsAppendBlock(words: seq<string>, w: string, c: nat)
    requires c >= 1
    requires Runs(words) == [] || Runs(words)[|Runs(words)| - 1].word != w
    ensures Runs(words + Repeat(w, c)) == Runs(words) + [Run(w, c)]
  {
    var all := words + Repeat(w, c);
    assert all[..|all| - 1] == words + Repeat(w, c - 1);
    if c > 1 {
      RunsAppendBlock(words, w, c - 1);
      var p := Runs(words) + [Run(w, c - 1)];
      assert p[..|p| - 1] == Runs(words);
    } else {
      assert words + Repeat(w, 0) == words;
    }
  }

  /** Runs without empty or mergeable neighbours are exactly what counting their expansion gives. */
  lemma {:induction false} ExpandRuns(runs: seq<Run>)
    requires Canonical(runs)
    ensures Runs(Expand(runs)) == runs
  {
    if runs != [] {
      var init, last := runs[..|runs| - 1], runs[|runs| - 1];
      assert Canonical(init);
      ExpandRuns(init);
      assert init != [] ==> init[|init| - 1] == runs[|runs| - 2];
      RunsAppendBlock(Expand(init), last.word, last.count);
      assert runs == init + [last];
    }
  }

  /** Every run holds a word of the list. */
  lemma {:induction false} RunWords(words: seq<string>)
    ensures forall i :: 0 <= i < |Runs(words)| ==> Runs(words)[i].word in words
  {
    if words != [] {
      var front := words[..|words| - 1];
      RunWords(front);
      assert forall x :: x in front ==> x in words;
    }
  }

  /** In a sorted list, a word that differs from its left neighbour occurs nowhere to its left. */
  lemma SortedFresh(words: seq<string>)
    requires LexSorted(words) && |words| >= 2
    requires words[|words| - 2] != words[|words| - 1]
    ensures words[|words| - 1] !in words[..|words| - 1]
  {
    var n := |words|;
    LexLessTrichotomy(words[n - 2], words[n - 1]);
    forall i | 0 <= i < n - 1
      ensures words[i] != words[n - 1]
    {
      assert !LexLess(words[n - 2], words[i]) || i == n - 2;
    }
  }

  /** No word has two runs. */
  predicate DistinctWords(runs: seq<Run>)
  {
    forall i, j :: 0 <= i < j < |runs| ==> runs[i].word != runs[j].word
  }

  /** Pushing the last run's word, or a word no run holds, keeps the words distinct. */
  lemma PushDistinct(runs: seq<Run>, w: string)
    requires DistinctWords(runs)
    requires (runs != [] && runs[|runs| - 1].word == w) || forall i :: 0 <= i < |runs| ==> runs[i].word != w
    ensures DistinctWords(Push(runs, w))
  {
    var r := Push(runs, w);
    if runs != [] && runs[|runs| - 1].word == w {
      assert forall i :: 0 <= i < |r| ==> r[i].word == runs[i].word;
    } else {
      assert forall i :: 0 <= i < |runs| ==> r[i] == runs[i];
    }
  }

  /** In a sorted list every word has exactly one run. */
  lemma {:induction false} RunsDistinct(words: seq<string>)
    requires LexSorted(words)
    ensures DistinctWords(Runs(words))
  {
    if words != [] {
      var front, w := words[..|words| - 1], words[|words| - 1];
      var prev := Runs(front);
      assert LexSorted(front);
      RunsDistinct(front);
      if prev != [] && prev[|prev| - 1].word != w {
        RunWords(front);
        SortedFresh(words);
      }
      PushDistinct(prev, w);
    }
  }

  /** A run as a ranked group: the label is the key, the run length the size. */
  function Entries(runs: seq<Run>): (gs: seq<Ranking.Group>)
    ensures |gs| == |runs|
  {
    seq(|runs|, i requires 0 <= i < |runs| => Ranking.Group([runs[i].word], runs[i].count))
  }

  /** Each word as a one-column group key. */
  function Singletons(words: seq<string>): (keys: seq<Ranking.Key>)
    ensures |keys| == |words|
  {
    seq(|words|, i requires 0 <= i < |words| => [words[i]])
  }

  /** Bumping the key of the last group, held by no other group, grows that group. */
  lemma {:induction false} BumpLast(gs: seq<Ranking.Group>, k: Ranking.Key)
    requires gs != [] && gs[|gs| - 1].key == k
    requires forall i :: 0 <= i < |gs| - 1 ==> gs[i].key != k
    ensures Ranking.Bump(gs, k) == gs[..|gs| - 1] + [Ranking.Group(k, gs[|gs| - 1].size + 1)]
  {
    if |gs| > 1 {
      BumpLast(gs[1..], k);
      assert gs[1..][..|gs| - 2] == gs[1..|gs| - 1];
      assert gs[..|gs| - 1] == [gs[0]] + gs[1..|gs| - 1];
    }
  }

  /** Bumping a key no group holds adds a group of one at the end. */
  lemma {:induction false} BumpAbsent(gs: seq<Ranking.Group>, k: Ranking.Key)
    requires forall i :: 0 <= i < |gs| ==> gs[i].key != k
    ensures Ranking.Bump(gs, k) == gs + [Ranking.Group(k, 1)]
  {
    if gs != [] {
      BumpAbsent(gs[1..], k);
      assert gs + [Ranking.Group(k, 1)] == [gs[0]] + (gs[1..] + [Ranking.Group(k, 1)]);
    }
  }

  /**
   * On a sorted word list the run entries are exactly the groups that
   * counting each word as a key gives: one per distinct word, with its
   * number of occurrences, in first-occurrence order.
   */
  lemma {:induction false} RunsCount(words: seq<string>)
    requires LexSorted(words)
    ensures Entries(Runs(words)) == Ranking.CountKeys(Singletons(words))
  {
    if words != [] {
      var front, w := words[..|words| - 1], words[|words| - 1];
      SplitLast(words);
      RunsCount(front);
      assert Singletons(words)[..|words| - 1] == Singletons(front);
      CountPush(front, w);
    }
  }

  /** Counting one more word of a sorted list bumps its key among the groups. */
  lemma CountPush(words: seq<string>, w: string)
    requires LexSorted(words + [w])
    ensures Entries(Push(Runs(words), w)) == Ranking.Bump(Entries(Runs(words)), [w])
  {
    var all := words + [w];
    var prev := Runs(words);
    assert all[..|words|] == words;
    RunsDistinct(words);
    if prev != [] && prev[|prev| - 1].word == w {
      PushExtends(prev, w);
    } else {
      RunWords(words);
      if prev != [] {
        SortedFresh(all);
      }
      PushStarts(prev, w);
    }
  }

  lemma PushExtends(runs: seq<Run>, w: string)
    requires runs != [] && runs[|runs| - 1].word == w
    requires DistinctWords(runs)
    ensures Entries(Push(runs, w)) == Ranking.Bump(Entries(runs), [w])
  {
    var e := Entries(runs);
    BumpLast(e, [w]);
    assert Entries(runs[..|runs| - 1]) == e[..|e| - 1];
  }

  lemma PushStarts(runs: seq<Run>, w: string)
    requires forall i :: 0 <= i < |runs| ==> runs[i].word != w
    ensures Entries(Push(runs, w)) == Ranking.Bump(Entries(runs), [w])
  {
    BumpAbsent(Entries(runs), [w]);
  }

  /** One step of the counting loop, seen on the runs of the words read so far. */
  lemma RunsStep(words: seq<string>, i: nat, done: seq<Run>, count: nat)
    requires i + 1 < |words|
    requires Runs(words[..i + 1]) == done + [Run(words[i], count)]
    ensures words[i] == words[i + 1] ==> Runs(words[..i + 2]) == done + [Run(words[i + 1], count + 1)]
    ensures words[i] != words[i + 1] ==> Runs(words[..i + 2]) == (done + [Run(words[i], count)]) + [Run(words[i + 1], 1)]
  {
    var w := words[i + 1];
    assert words[..i + 2] == words[..i + 1] + [w];
    RunsSnoc(words[..i + 1], w);
    var p := done + [Run(words[i], count)];
    assert p[..|p| - 1] == done;
  }

  /** Counting a list with one more word pushes that word onto the runs. */
  lemma RunsSnoc(words: seq<string>, w: string)
    ensures Runs(words + [w]) == Push(Runs(words), w)
  {
    var all := words + [w];
    assert all[..|all| - 1] == words;
  }

  /**
   * The counting loop of every question: walks the sorted word list, counts
   * equal neighbours, and inserts each finished entry into the result list,
   * which stays in ranking order (`add_front` for the first entry, the
   * re-sort by count for the others).
   */
  method CountRuns(words: seq<string>, dir: Ranking.Direction) returns (final: seq<Ranking.Group>)
    ensures Ranking.Ordered(final, dir)
    ensures multiset(final) == multiset(Entries(Runs(words)))
  {
    final := [];
    var count := 1;
    ghost var done: seq<Run> := [];
    var i := 0;
    while i < |words|
      invariant 0 <= i <= |words|
      invariant count >= 1
      invariant i < |words| ==> Runs(words[..i + 1]) == done + [Run(words[i], count)]
      invariant i == |words| ==> Runs(words) == done
      invariant Ranking.Ordered(final, dir)
      invariant multiset(final) == multiset(Entries(done))
    {
      if i + 1 < |words| {
        RunsStep(words, i, done, count);
      } else {
        assert words[..i + 1] == words;
      }
      if i + 1 < |words| && words[i] == words[i + 1] {
        count := count + 1;
      } else {
        final := AddEntry(Ranking.Group([words[i]], count), final, dir);
        EntriesSnoc(done, Run(words[i], count));
        done := done + [Run(words[i], count)];
        count := 1;
      }
      i := i + 1;
    }
  }

  /**
   * Places a finished entry into the result list: `add_front` when the list
   * is empty, the re-sort by count otherwise; the list stays in ranking order.
   */
  method AddEntry(entry: Ranking.Group, final: seq<Ranking.Group>, dir: Ranking.Direction) returns (r: seq<Ranking.Group>)
    requires Ranking.Ordered(final, dir)
    ensures Ranking.Ordered(r, dir)
    ensures multiset(r) == multiset(final) + multiset{entry}
  {
    Ranking.InsertSpec(entry, final, dir);
    if final == [] {
      r := [entry];
    } else {
      r := Ranking.Insert(entry, final, dir);
    }
  }

  lemma EntriesSnoc(runs: seq<Run>, r: Run)
    ensures Entries(runs + [r]) == Entries(runs) + [Ranking.Group([r.word], r.count)]
  {
  }

  /**
   * Whatever the re-sort does with ties inside the list, a result list in
   * ranking order holding the run entries of a sorted word list is the
   * ranking of those words.
   */
  lemma CountRunsRank(words: seq<string>, final: seq<Ranking.Group>, dir: Ranking.Direction)
    requires LexSorted(words)
    requires Ranking.Ordered(final, dir)
    requires multiset(final) == multiset(Entries(Runs(words)))
    ensures final == Ranking.SortGroups(Ranking.CountKeys(Singletons(words)), dir)
  {
    var gs := Ranking.CountKeys(Singletons(words));
    RunsCount(words);
    Ranking.CountKeysSpec(Singletons(words));
    Ranking.SortGroupsSpec(gs, dir);
    Ranking.RankingUnique(Ranking.SortGroups(gs, dir), final, dir);
  }

  lemma {:induction false} SingletonsCount(words: seq<string>, k: Ranking.Key)
    ensures multiset(Singletons(words))[k] == if |k| == 1 then multiset(words)[k[0]] else 0
  {
    if words != [] {
      var front, w := words[..|words| - 1], words[|words| - 1];
      SingletonsCount(front, k);
      assert Singletons(words) == Singletons(front) + [[w]];
      assert words == front + [w];
      assert |k| == 1 ==> (k == [w] <==> k[0] == w);
    }
  }

  /** Two orders of the same words give two orders of the same keys. */
  lemma SingletonsPermute(a: seq<string>, b: seq<string>)
    requires multiset(a) == multiset(b)
    ensures multiset(Singletons(a)) == multiset(Singletons(b))
  {
    forall k
      ensures multiset(Singletons(a))[k] == multiset(Singletons(b))[k]
    {
      SingletonsCount(a, k);
      SingletonsCount(b, k);
    }
  }

  // ---------------------------------------------------------------------
  // exportCSV
  // ---------------------------------------------------------------------

  const Header: string := "subject,statistic"

  /** The entry word `label + count` that the counting loop builds and `exportCSV` writes. */
  function EntryLine(g: Ranking.Group): string
  {
    Join(g.key, ", ") + DecimalString(g.size)
  }

  function EntryLines(gs: seq<Ranking.Group>): (lines: seq<string>)
    ensures |lines| == |gs|
  {
    seq(|gs|, i requires 0 <= i < |gs| => EntryLine(gs[i]))
  }

  /** How many entries `count < N` lets through: none when N is not positive. */
  function Shown(n: int): nat
  {
    if n <= 0 then 0 else n
  }

  /** The lines of `output.csv`: the header, then the first N entries in list order. */
  function Csv(data: seq<Ranking.Group>, n: int): (lines: seq<string>)
    ensures |lines| == 1 + Min(Shown(n), |data|) && lines[0] == Header
  {
    [Header] + EntryLines(Ranking.Take(data, Shown(n)))
  }

  method ExportCSV(data: seq<Ranking.Group>, n: int) returns (lines: seq<string>)
    ensures lines == Csv(data, n)
  {
    lines := [Header];
    var count := 0;
    while count < |data|
      invariant 0 <= count <= |data|
      invariant lines == [Header] + EntryLines(data[..Min(count, Shown(n))])
    {
      if count < n {
        assert data[..count + 1] == data[..count] + [data[count]];
        lines := lines + [EntryLine(data[count])];
      }
      count := count + 1;
    }
  }

  /** The position of the last comma in `line`, if any. */
  function LastComma(line: string): (r: Option<nat>)
    ensures r.Some? ==> r.value < |line| && line[r.value] == ','
  {
    if line == [] then None
    else if line[|line| - 1] == ',' then Some(|line| - 1)
    else LastComma(line[..|line| - 1])
  }

  lemma {:induction false} LastCommaBefore(a: string, b: string)
    requires a != [] && a[|a| - 1] == ','
    requires forall k :: 0 <= k < |b| ==> b[k] != ','
    ensures LastComma(a + b) == Some(|a| - 1)
  {
    if b != [] {
      assert (a + b)[..|a + b| - 1] == a + b[..|b| - 1];
      LastCommaBefore(a, b[..|b| - 1]);
    } else {
      assert a + b == a;
    }
  }

  /**
   * A written entry reads back: every label ends in a comma, so the line
   * splits at its last comma into the label text and the digits of the
   * count, even when the label itself holds commas.
   */
  lemma EntryLineReads(subject: string, count: nat)
    ensures var line := EntryLine(Ranking.Group([subject + ","], count));
      && LastComma(line) == Some(|subject|)
      && line[..|subject|] == subject
      && (forall k :: |subject| < k < |line| ==> '0' <= line[k] <= '9')
      && ParseDecimal(line[|subject| + 1..]) == count
  {
    var digits := DecimalString(count);
    var line := EntryLine(Ranking.Group([subject + ","], count));
    assert line == (subject + ",") + digits;
    LastCommaBefore(subject + ",", digits);
    assert line[|subject| + 1..] == digits;
    DecimalRoundTrip(count);
  }

  // ---------------------------------------------------------------------
  // The question handlers and main
  // ---------------------------------------------------------------------

  /** Question two ranks by ascending count, questions one and three by descending count. */
  function Order(q: YamlScanner.Question): Ranking.Direction
  {
    if q == YamlScanner.Two then Ranking.Ascending else Ranking.Descending
  }

  /**
   * What a handler writes to `output.csv`, or `None` when the routes file
   * cannot be opened: the top N labels of the file with their counts.
   */
  function Expected(q: YamlScanner.Question, input: Option<seq<string>>, n: int): Option<seq<string>>
    requires input.Some? ==> YamlScanner.ScannableFile(q, input.value)
  {
    if input.None? then None
    else
      var labels := YamlScanner.Labels(q, input.value);
      Some([Header] + EntryLines(Ranking.Rank(Singletons(labels), Order(q), Shown(n))))
  }

  /**
   * `questionOne`, `questionTwo`, `questionThree`: scan the file into the
   * sorted word list, count its runs, export the first N entries. The
   * result is the ranking of the labels the scan produced.
   */
  method Answer(q: YamlScanner.Question, input: Option<seq<string>>, n: int) returns (code: int, output: Option<seq<string>>)
    requires input.Some? ==> YamlScanner.ScannableFile(q, input.value)
    ensures code == (if input.None? then 1 else 0)
    ensures output == Expected(q, input, n)
  {
    if input.None? {
      return 1, None;
    }
    var file := input.value;
    var words := YamlScanner.ScanFile(q, file);
    var final := CountRuns(words, Order(q));
    CountRunsRank(words, final, Order(q));
    var labels := YamlScanner.Labels(q, file);
    SingletonsPermute(words, labels);
    Ranking.RankIgnoresOrder(Singletons(words), Singletons(labels), Order(q));
    var lines := ExportCSV(final, n);
    code, output := 0, Some(lines);
  }

  /** The handler `main` runs for the question argument. */
  function Selected(question: string): Option<YamlScanner.Question>
  {
    if question == "1" then Some(YamlScanner.One)
    else if question == "2" then Some(YamlScanner.Two)
    else if question == "3" then Some(YamlScanner.Three)
    else None
  }

  /**
   * `main`: runs the handler named by the question argument and exits with
   * 0 whatever the handler returned; any other question exits with 1 and
   * writes nothing.
   */
  method Dispatch(question: string, input: Option<seq<string>>, n: int) returns (code: int, output: Option<seq<string>>)
    requires Selected(question).Some? && input.Some? ==> YamlScanner.ScannableFile(Selected(question).value, input.value)
    ensures Selected(question).None? ==> code == 1 && output.None?
    ensures Selected(question).Some? ==> code == 0 && output == Expected(Selected(question).value, input, n)
  {
    var q := Selected(question);
    if q.None? {
      return 1, None;
    }
    var ignored;
    ignored, output := Answer(q.value, input, n);
    code := 0;
  }
}
