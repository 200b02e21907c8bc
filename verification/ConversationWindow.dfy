/** The short conversation window (iris/runtime/conversation.py) and the store it is loaded from
    (iris/runtime/state/conversation.py). */
module ConversationWindow {
  import opened Prelude

  datatype Role = User | Assistant

  datatype Record = Record(role: Role, content: string, occurredAt: real)

  datatype Policy = Policy(
    maxWindowRecords: int,
    maxHistoryChars: int,
    summaryEnabled: bool,
    summaryMaxChars: int,
    summaryMinRecords: int)

  datatype Window = Window(records: seq<Record>, summary: Option<string>)

  /** Python's `xs[-k:]`: the last `k`, but everything for zero and all but the first `-k` for negative `k`. */
  function FromEnd<T>(xs: seq<T>, k: int): (r: seq<T>) {
    if k > 0 then (if k < |xs| then xs[|xs| - k..] else xs)
    else if -k < |xs| then xs[-k..] else []
  }

  function Chars(xs: seq<Record>): (n: nat) {
    if xs == [] then 0 else |xs[0].content| + Chars(xs[1..])
  }

  /** The characters of a list are those of its records. */
  lemma CharsOf(xs: seq<Record>, x: Record)
    ensures Chars([]) == 0 && Chars(xs + [x]) == Chars(xs) + |x.content|
  {
    CharsConcat(xs, [x]);
    assert [x][1..] == [];
  }

  /** What `xs[-k:]` keeps: the last `k` for a positive `k`, everything for zero, and all but the first `-k`
      otherwise. */
  lemma FromEndKeeps<T>(xs: seq<T>, k: int)
    ensures var r := FromEnd(xs, k);
            && |r| <= |xs| && r == xs[|xs| - |r|..]
            && (k > 0 ==> |r| == k || (|r| < k && r == xs))
            && (k == 0 ==> r == xs)
            && (k < 0 ==> |r| == |xs| + k || (r == [] && |xs| < -k))
  {
  }

  /** Both budgets are met; a budget that is not positive admits only the empty window. */
  predicate Within(p: Policy, xs: seq<Record>) {
    xs == [] || (0 < p.maxWindowRecords && 0 < p.maxHistoryChars && |xs| <= p.maxWindowRecords
                 && Chars(xs) <= p.maxHistoryChars)
  }

  function Suffix(xs: seq<Record>, n: nat): (r: seq<Record>)
    requires n <= |xs|
    ensures |r| == n
  {
    xs[|xs| - n..]
  }

  /** The simple form: drop the oldest record until both budgets are met. */
  function Trim(p: Policy, xs: seq<Record>): (r: seq<Record>)
    ensures |r| <= |xs|
  {
    if Within(p, xs) then xs else Trim(p, xs[1..])
  }

  /** It is a suffix within the budgets. */
  lemma {:induction false} TrimShape(p: Policy, xs: seq<Record>)
    ensures Trim(p, xs) == Suffix(xs, |Trim(p, xs)|) && Within(p, Trim(p, xs))
  {
    if Within(p, xs) {
      assert xs[0..] == xs;
    } else {
      TrimShape(p, xs[1..]);
      var n := |Trim(p, xs[1..])|;
      assert Suffix(xs[1..], n) == Suffix(xs, n);
    }
  }

  lemma {:induction false} CharsConcat(xs: seq<Record>, ys: seq<Record>)
    ensures Chars(xs + ys) == Chars(xs) + Chars(ys)
  {
    if xs == [] {
      assert xs + ys == ys;
    } else {
      assert (xs + ys)[1..] == xs[1..] + ys;
      CharsConcat(xs[1..], ys);
    }
  }

  lemma SuffixWithin(p: Policy, xs: seq<Record>, n: nat)
    requires n <= |xs| && Within(p, xs)
    ensures Within(p, Suffix(xs, n))
  {
    CharsConcat(xs[..|xs| - n], xs[|xs| - n..]);
    assert xs == xs[..|xs| - n] + xs[|xs| - n..];
  }

  /** The trimmed window is the longest suffix within the budgets. */
  lemma {:induction false} TrimIsLongest(p: Policy, xs: seq<Record>, n: nat)
    requires n <= |xs|
    ensures Within(p, Suffix(xs, n)) <==> n <= |Trim(p, xs)|
    ensures n <= |Trim(p, xs)| <==>
            n == 0 || (0 < p.maxWindowRecords && 0 < p.maxHistoryChars && n <= p.maxWindowRecords
                       && Chars(Suffix(xs, n)) <= p.maxHistoryChars)
  {
    if Within(p, xs) {
      SuffixWithin(p, xs, n);
    } else if n == |xs| {
      assert Suffix(xs, n) == xs;
    } else {
      assert Suffix(xs[1..], n) == Suffix(xs, n);
      TrimIsLongest(p, xs[1..], n);
    }
  }

  /** Being maximal determines the window. */
  lemma TrimDetermined(p: Policy, xs: seq<Record>, n: nat)
    requires n <= |xs| && Within(p, Suffix(xs, n))
    requires n < |xs| ==> !Within(p, Suffix(xs, n + 1))
    ensures Trim(p, xs) == Suffix(xs, n)
  {
    TrimShape(p, xs);
    TrimIsLongest(p, xs, n);
    if n < |xs| { TrimIsLongest(p, xs, n + 1); }
  }

  /** A suffix that holds the window is as good as the whole history. */
  lemma TrimOfSuffix(p: Policy, xs: seq<Record>, m: nat)
    requires m <= |xs|
    ensures |Trim(p, xs)| <= m ==> Trim(p, Suffix(xs, m)) == Trim(p, xs)
  {
    var n := |Trim(p, xs)|;
    TrimShape(p, xs);
    if n <= m {
      assert Suffix(Suffix(xs, m), n) == Suffix(xs, n);
      if n < m {
        assert Suffix(Suffix(xs, m), n + 1) == Suffix(xs, n + 1);
        TrimIsLongest(p, xs, n + 1);
      }
      TrimDetermined(p, Suffix(xs, m), n);
    }
  }

  lemma SuffixOfConcat(xs: seq<Record>, ys: seq<Record>, n: nat)
    requires n <= |xs|
    ensures Suffix(xs + ys, n + |ys|) == Suffix(xs, n) + ys
  {
  }

  lemma TrimOfTail(p: Policy, xs: seq<Record>, ys: seq<Record>)
    ensures |Trim(p, xs + ys)| <= |Trim(p, xs)| + |ys|
  {
    var n := |Trim(p, xs + ys)|;
    TrimShape(p, xs + ys);
    if n > |ys| {
      var s := Suffix(xs + ys, n);
      SuffixOfConcat(xs, ys, n - |ys|);
      CharsConcat(Suffix(xs, n - |ys|), ys);
      assert Within(p, Suffix(xs, n - |ys|));
      TrimIsLongest(p, xs, n - |ys|);
    }
  }

  /** Online trimming is exact: what was dropped earlier never matters later. */
  lemma OnlineTrim(p: Policy, xs: seq<Record>, ys: seq<Record>)
    ensures Trim(p, Trim(p, xs) + ys) == Trim(p, xs + ys)
  {
    TrimOfTail(p, xs, ys);
    TrimShape(p, xs);
    SuffixOfConcat(xs, ys, |Trim(p, xs)|);
    TrimOfPart(p, xs + ys, Trim(p, xs) + ys);
  }

  lemma TrimOfPart(p: Policy, all: seq<Record>, part: seq<Record>)
    requires |part| <= |all| && part == Suffix(all, |part|)
    ensures |Trim(p, all)| <= |part| ==> Trim(p, part) == Trim(p, all)
  {
    TrimOfSuffix(p, all, |part|);
  }

  lemma WindowSize(p: Policy, xs: seq<Record>)
    ensures |Trim(p, xs)| == 0 || (0 < |Trim(p, xs)| <= p.maxWindowRecords && 0 < p.maxHistoryChars)
  {
    TrimShape(p, xs);
  }

  /** Keeping at least the window's number of records loses nothing. */
  lemma TrimOfFromEnd(p: Policy, xs: seq<Record>, k: int)
    requires k > 0 && k >= p.maxWindowRecords
    ensures Trim(p, FromEnd(xs, k)) == Trim(p, xs)
  {
    WindowSize(p, xs);
    if k < |xs| {
      assert FromEnd(xs, k) == Suffix(xs, k);
      TrimOfSuffix(p, xs, k);
    }
  }

  lemma TrimDegenerate(p: Policy, xs: seq<Record>)
    requires p.maxWindowRecords <= 0 || p.maxHistoryChars <= 0
    ensures Trim(p, xs) == []
  {
    WindowSize(p, xs);
  }

  // ----- the greedy loop ------------------------------------------------------------------------------

  function Reversed(xs: seq<Record>): (r: seq<Record>)
    ensures |r| == |xs|
    ensures forall i :: 0 <= i < |xs| ==> r[i] == xs[|xs| - 1 - i]
  {
    seq(|xs|, i requires 0 <= i < |xs| => xs[|xs| - 1 - i])
  }

  lemma ReversedAppend(xs: seq<Record>, x: Record)
    ensures Reversed(xs + [x]) == [x] + Reversed(xs)
  {
  }

  /** `_select_recent`: greedy, newest first. */
  method SelectRecent(p: Policy, records: seq<Record>) returns (r: seq<Record>)
    ensures r == Trim(p, records)
  {
    if p.maxWindowRecords <= 0 || p.maxHistoryChars <= 0 {
      TrimDegenerate(p, records);
      return [];
    }
    var candidates := FromEnd(records, p.maxWindowRecords);
    TrimOfFromEnd(p, records, p.maxWindowRecords);
    r := SelectGreedily(p, candidates);
  }

  method SelectGreedily(p: Policy, candidates: seq<Record>) returns (r: seq<Record>)
    requires 0 < p.maxWindowRecords && 0 < p.maxHistoryChars && |candidates| <= p.maxWindowRecords
    ensures r == Trim(p, candidates)
  {
    var selected: seq<Record> := [];
    var used := 0;
    var n := 0;
    while n < |candidates|
      invariant n <= |candidates|
      invariant Reversed(selected) == Suffix(candidates, n)
      invariant used == Chars(Suffix(candidates, n)) <= p.maxHistoryChars
      invariant Within(p, Suffix(candidates, n))
    {
      var record := candidates[|candidates| - 1 - n];
      ghost var longer := Suffix(candidates, n + 1);
      assert longer[0] == record && longer[1..] == Suffix(candidates, n);
      if used + |record.content| > p.maxHistoryChars {
        assert !Within(p, longer);
        break;
      }
      ReversedAppend(selected, record);
      assert longer == [record] + Suffix(candidates, n);
      selected := selected + [record];
      used := used + |record.content|;
      n := n + 1;
    }
    TrimDetermined(p, candidates, n);
    r := Reversed(selected);
  }

  // ----- the window and its summary -------------------------------------------------------------------

  function LoadRecordLimit(p: Policy): (n: int) {
    if p.maxWindowRecords >= p.summaryMinRecords * 2 then p.maxWindowRecords else p.summaryMinRecords * 2
  }

  function Older(p: Policy, xs: seq<Record>): (r: seq<Record>) { xs[..|xs| - |Trim(p, xs)|] }

  predicate ShouldSummarize(p: Policy, xs: seq<Record>) {
    && p.summaryEnabled && p.maxHistoryChars > 0 && p.summaryMaxChars > 0
    && |xs| >= p.summaryMinRecords && Older(p, xs) != []
  }

  /** The summary lines joined by newlines. */
  function Lines(xs: seq<Record>, line: Record -> string): (s: string) {
    if xs == [] then "" else if |xs| == 1 then line(xs[0]) else line(xs[0]) + "\n" + Lines(xs[1..], line)
  }

  /** One line per record, in order, a newline between neighbours. */
  lemma {:induction false} LinesOf(xs: seq<Record>, x: Record, line: Record -> string)
    ensures Lines(xs + [x], line) == if xs == [] then line(x) else Lines(xs, line) + "\n" + line(x)
  {
    if xs == [] {
      assert xs + [x] == [x];
    } else {
      assert (xs + [x])[0] == xs[0] && (xs + [x])[1..] == xs[1..] + [x];
      LinesOf(xs[1..], x, line);
      Joined(line(xs[0]), Lines(xs[1..], line), line(x));
    }
  }

  lemma Joined(a: string, b: string, c: string)
    ensures a + "\n" + (b + "\n" + c) == (a + "\n" + b) + "\n" + c
  {
  }

  function Summarize(xs: seq<Record>, maxChars: int, line: Record -> string): (s: string)
    requires maxChars > 0
    ensures |s| <= maxChars
    ensures |Lines(xs, line)| <= maxChars ==> s == Lines(xs, line)
    ensures |Lines(xs, line)| > maxChars ==>
              |s| == maxChars && s[..maxChars - 1] <= Lines(xs, line) && s[maxChars - 1] == '\U{2026}'
  {
    var all := Lines(xs, line);
    if |all| <= maxChars then all else all[..maxChars - 1] + "\U{2026}"
  }

  function BuildWindow(p: Policy, xs: seq<Record>, line: Record -> string): (w: Window) {
    Window(Trim(p, xs), if ShouldSummarize(p, xs) then Some(Summarize(Older(p, xs), p.summaryMaxChars, line)) else None)
  }

  /** The window splits the history: what is older, then what is shown; and there is a summary exactly when summaries
      are on, there is enough to summarise and something is older. */
  lemma WindowSplitsHistory(p: Policy, xs: seq<Record>, line: Record -> string)
    ensures var w := BuildWindow(p, xs, line);
            && Older(p, xs) + w.records == xs
            && (w.summary.Some? <==>
                && p.summaryEnabled && p.maxHistoryChars > 0 && p.summaryMaxChars > 0
                && |xs| >= p.summaryMinRecords && |w.records| < |xs|)
  {
    TrimShape(p, xs);
    assert xs == xs[..|xs| - |Trim(p, xs)|] + xs[|xs| - |Trim(p, xs)|..];
  }

  /** A summary is the lines of what is older, cut at the limit with an ellipsis for the last character. */
  lemma SummaryShown(p: Policy, xs: seq<Record>, line: Record -> string)
    requires BuildWindow(p, xs, line).summary.Some?
    ensures var w, older := BuildWindow(p, xs, line), xs[..|xs| - |Trim(p, xs)|];
            var s, lines := w.summary.value, Lines(older, line);
            && |s| <= p.summaryMaxChars && (|lines| <= p.summaryMaxChars ==> s == lines)
            && (|lines| > p.summaryMaxChars ==> s == lines[..p.summaryMaxChars - 1] + "\U{2026}")
  {
  }

  /** `build_window`, with its greedy selection. */
  method BuildWindowOf(p: Policy, records: seq<Record>, line: Record -> string) returns (w: Window)
    ensures w == BuildWindow(p, records, line)
  {
    var recent := SelectRecent(p, records);
    assert records[..|records|] == records;
    var older := if recent != [] then records[..|records| - |recent|] else records;
    if p.summaryEnabled && p.maxHistoryChars > 0 && p.summaryMaxChars > 0 && |records| >= p.summaryMinRecords
        && older != [] {
      w := Window(recent, Some(Summarize(older, p.summaryMaxChars, line)));
    } else {
      w := Window(recent, None);
    }
  }

  /** `recent_window`: what the store hands out for a limit. */
  function Loaded(xs: seq<Record>, limit: int): (r: seq<Record>) { if limit > 0 then FromEnd(xs, limit) else [] }

  /** The load limit is large enough: trimming what is loaded is trimming the whole history. */
  lemma LoadLimitSuffices(p: Policy, xs: seq<Record>)
    ensures Trim(p, Loaded(xs, LoadRecordLimit(p))) == Trim(p, xs)
  {
    if LoadRecordLimit(p) > 0 { TrimOfFromEnd(p, xs, LoadRecordLimit(p)); } else { TrimDegenerate(p, xs); }
  }

  /** The number of records loaded at most. */
  function Loadable(p: Policy): (n: nat)
    ensures n >= p.maxWindowRecords && n >= p.summaryMinRecords * 2
    ensures n in {0, p.maxWindowRecords, p.summaryMinRecords * 2}
  {
    if LoadRecordLimit(p) > 0 then LoadRecordLimit(p) else 0
  }

  lemma WindowFillsLimitIff(p: Policy, xs: seq<Record>)
    requires |xs| > Loadable(p)
    ensures |Trim(p, xs)| == Loadable(p) <==> Within(p, Suffix(xs, Loadable(p)))
  {
    TrimIsLongest(p, xs, Loadable(p));
    WindowSize(p, xs);
  }

  /** The loaded records and the whole history disagree on having a summary exactly when summaries are on, the history
      is longer than what is loaded, and all that is loaded fits into the window: then nothing older has been loaded
      and the summary is silently lost. */
  lemma SummaryLostIff(p: Policy, xs: seq<Record>, line: Record -> string)
    ensures var w, whole := BuildWindow(p, Loaded(xs, LoadRecordLimit(p)), line), BuildWindow(p, xs, line);
            w.summary.Some? != whole.summary.Some? <==>
            && p.summaryEnabled && p.maxHistoryChars > 0 && p.summaryMaxChars > 0
            && |xs| > Loadable(p) && Within(p, Suffix(xs, Loadable(p)))
  {
    LoadLimitSuffices(p, xs);
    WindowSize(p, xs);
    if |xs| > Loadable(p) { WindowFillsLimitIff(p, xs); }
  }

  /** A window of two with a summary from one record on: three short messages should have a summary and get none. */
  lemma SummaryLost(line: Record -> string) returns (p: Policy, xs: seq<Record>)
    ensures p == Policy(2, 100, true, 50, 1) && |xs| == 3 && forall i :: 0 <= i < 3 ==> |xs[i].content| == 1
    ensures BuildWindow(p, xs, line).summary.Some?
    ensures BuildWindow(p, Loaded(xs, LoadRecordLimit(p)), line).summary.None?
  {
    p, xs := Policy(2, 100, true, 50, 1), [Record(User, "a", 0.0), Record(Assistant, "b", 1.0), Record(User, "c", 2.0)];
    TwoChars(xs[1], xs[2]);
    assert Suffix(xs, 2) == [xs[1], xs[2]];
    WindowFillsLimitIff(p, xs);
    SummaryLostIff(p, xs, line);
  }

  lemma TwoChars(x: Record, y: Record)
    ensures Chars([x, y]) == |x.content| + |y.content|
  {
    assert [x, y][1..] == [y] && [y][1..] == [];
    assert Chars([y]) == |y.content|;
  }

  /** Two loaded records per record a summary needs rule the loss out. */
  lemma SummaryNeverLost(p: Policy, xs: seq<Record>, line: Record -> string)
    requires 0 < p.summaryMinRecords && p.maxWindowRecords < p.summaryMinRecords * 2
    ensures BuildWindow(p, Loaded(xs, LoadRecordLimit(p)), line).summary.Some? <==>
            BuildWindow(p, xs, line).summary.Some?
  {
    SummaryLostIff(p, xs, line);
  }

  // ----- the store ------------------------------------------------------------------------------------

  datatype Entry<K> = Entry(key: K, records: seq<Record>)

  /** One append to the records of one key. */
  function Retain(xs: seq<Record>, batch: seq<Record>, maxRecords: int): (r: seq<Record>) {
    if batch == [] then xs else FromEnd(xs + batch, maxRecords)
  }

  function Stored<K(==)>(store: map<K, seq<Record>>, key: K): (r: seq<Record>) {
    if key in store then store[key] else []
  }

  function AppendTo<K(==)>(store: map<K, seq<Record>>, a: Entry<K>, maxRecords: int): (r: map<K, seq<Record>>) {
    if a.records == [] then store else store[a.key := Retain(Stored(store, a.key), a.records, maxRecords)]
  }

  /** The store after a log of appends to any keys. */
  function AfterAll<K(==)>(log: seq<Entry<K>>, maxRecords: int): (r: map<K, seq<Record>>) {
    if log == [] then map[] else AppendTo(AfterAll(log[..|log| - 1], maxRecords), log[|log| - 1], maxRecords)
  }

  /** Everything ever said under a key. */
  function History<K(==)>(log: seq<Entry<K>>, key: K): (r: seq<Record>) {
    if log == [] then []
    else
      var before := History(log[..|log| - 1], key);
      if log[|log| - 1].key == key then before + log[|log| - 1].records else before
  }

  /** The retention limit keeps every record a window can show. */
  predicate RetentionSuffices(p: Policy, maxRecords: int) {
    maxRecords == 0 || maxRecords >= p.maxWindowRecords > 0 || p.maxWindowRecords <= 0 || p.maxHistoryChars <= 0
  }

  lemma RetainExact(p: Policy, xs: seq<Record>, ys: seq<Record>, batch: seq<Record>, maxRecords: int)
    requires RetentionSuffices(p, maxRecords) && 0 < p.maxWindowRecords && 0 < p.maxHistoryChars
    requires Trim(p, xs) == Trim(p, ys)
    ensures Trim(p, Retain(xs, batch, maxRecords)) == Trim(p, ys + batch)
  {
    OnlineTrim(p, xs, batch);
    OnlineTrim(p, ys, batch);
    if batch == [] {
      assert xs + batch == xs && ys + batch == ys;
    } else if maxRecords > 0 {
      TrimOfFromEnd(p, xs + batch, maxRecords);
    }
  }

  /** With enough retention the window of every key, after every log of appends, is the window of that key's
      full history. */
  lemma {:induction false} WindowExact<K>(p: Policy, maxRecords: int, log: seq<Entry<K>>, key: K)
    requires RetentionSuffices(p, maxRecords)
    ensures Trim(p, Loaded(Stored(AfterAll(log, maxRecords), key), LoadRecordLimit(p))) == Trim(p, History(log, key))
  {
    LoadLimitSuffices(p, Stored(AfterAll(log, maxRecords), key));
    StoredExact(p, maxRecords, log, key);
  }

  lemma {:induction false} StoredExact<K>(p: Policy, maxRecords: int, log: seq<Entry<K>>, key: K)
    requires RetentionSuffices(p, maxRecords)
    ensures Trim(p, Stored(AfterAll(log, maxRecords), key)) == Trim(p, History(log, key))
  {
    if p.maxWindowRecords <= 0 || p.maxHistoryChars <= 0 {
      TrimDegenerate(p, Stored(AfterAll(log, maxRecords), key));
      TrimDegenerate(p, History(log, key));
    } else if log != [] {
      var front, last := log[..|log| - 1], log[|log| - 1];
      StoredExact(p, maxRecords, front, key);
      if last.key == key {
        var xs, ys := Stored(AfterAll(front, maxRecords), key), History(front, key);
        RetainExact(p, xs, ys, last.records, maxRecords);
      }
    }
  }

  function Silence(n: nat): (r: seq<Record>)
    ensures |r| == n && Chars(r) == 0
  {
    if n == 0 then [] else [Record(User, "", 0.0)] + Silence(n - 1)
  }

  /** Enough retention is also necessary: otherwise some log loses a record the window should show. */
  lemma WindowExactIff<K(!new)>(p: Policy, maxRecords: int, key: K)
    ensures (forall log: seq<Entry<K>> ::
               Trim(p, Loaded(Stored(AfterAll(log, maxRecords), key), LoadRecordLimit(p))) ==
               Trim(p, History(log, key))) <==>
            RetentionSuffices(p, maxRecords)
  {
    if RetentionSuffices(p, maxRecords) {
      forall log: seq<Entry<K>>
        ensures Trim(p, Loaded(Stored(AfterAll(log, maxRecords), key), LoadRecordLimit(p))) ==
                Trim(p, History(log, key))
      {
        WindowExact(p, maxRecords, log, key);
      }
    } else {
      LossyLog(p, maxRecords, key);
    }
  }

  lemma LossyLog<K>(p: Policy, maxRecords: int, key: K)
    requires !RetentionSuffices(p, maxRecords)
    ensures var log := [Entry(key, Silence(p.maxWindowRecords))];
            Trim(p, Loaded(Stored(AfterAll(log, maxRecords), key), LoadRecordLimit(p))) != Trim(p, History(log, key))
  {
    var all := Silence(p.maxWindowRecords);
    SingleAppend(key, all, maxRecords);
    LoadedShorter(p, FromEnd(all, maxRecords), LoadRecordLimit(p), all);
  }

  lemma LoadedShorter(p: Policy, kept: seq<Record>, limit: int, all: seq<Record>)
    requires |kept| < |all| && Within(p, all)
    ensures Trim(p, Loaded(kept, limit)) != Trim(p, all)
  {
    assert |Loaded(kept, limit)| <= |kept|;
    assert |Trim(p, Loaded(kept, limit))| < |Trim(p, all)|;
  }

  lemma SingleAppend<K>(key: K, batch: seq<Record>, maxRecords: int)
    requires batch != []
    ensures Stored(AfterAll([Entry(key, batch)], maxRecords), key) == FromEnd(batch, maxRecords)
    ensures History([Entry(key, batch)], key) == batch
  {
    var log := [Entry(key, batch)];
    assert log[..|log| - 1] == [];
    assert [] + batch == batch;
    assert AfterAll(log, maxRecords) == AppendTo(map[], log[0], maxRecords);
  }

  class InMemoryConversationHistoryStore<K(==)> {
    const maxRecords: int
    var records: map<K, seq<Record>>

    constructor (maxRecords: int)
      ensures this.maxRecords == maxRecords && records == map[]
    {
      this.maxRecords := maxRecords;
      this.records := map[];
    }

    method RecentWindow(key: K, limit: int) returns (r: seq<Record>)
      ensures r == Loaded(Stored(records, key), limit)
      ensures limit <= 0 || key !in records ==> r == []
      ensures limit > 0 && key in records ==>
                |r| <= |records[key]| && r == records[key][|records[key]| - |r|..]
                && |r| == (if limit <= |records[key]| then limit else |records[key]|)
    {
      var all := if key in records then records[key] else [];
      r := if limit > 0 then FromEnd(all, limit) else [];
    }

    method Append(key: K, batch: seq<Record>)
      modifies this
      ensures records == AppendTo(old(records), Entry(key, batch), maxRecords)
      ensures batch == [] ==> records == old(records)
      ensures forall k :: k in old(records) && k != key ==> k in records && records[k] == old(records)[k]
      ensures forall k :: k in records && k != key ==> k in old(records)
      ensures batch != [] && maxRecords > 0 ==>
                var all := old(Stored(records, key)) + batch;
                key in records && records[key] == if maxRecords <= |all| then all[|all| - maxRecords..] else all
    {
      if batch == [] { return; }
      var combined := (if key in records then records[key] else []) + batch;
      records := records[key := FromEnd(combined, maxRecords)];
    }
  }
}
