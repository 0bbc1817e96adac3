/** The log query of GET /api/users/:_id/logs: a user's stored exercise log is
    narrowed by an inclusive date range, truncated by a limit, rendered for
    display and counted. Every step is a pure function of the log and the
    query, as the handler's `filter`, `slice` and `map` are. */
module LogQuery {
  import opened Wrappers

  /** A JavaScript Date as its time value in milliseconds; None is an
      Invalid Date, whose time value is NaN. */
  type Timestamp = Option<int>

  /** One embedded log entry of a user. */
  datatype Entry = Entry(description: string, duration: int, date: Timestamp)

  /** One entry of the reply, with its date rendered as text. */
  datatype LogItem = LogItem(description: string, duration: int, date: string)

  /** What `parseInt` returns: an integer, or NaN when no digits were read. */
  datatype ParsedInt = Int(value: int) | NaN

  /** The raw query string fields `from`, `to` and `limit`. */
  datatype Query = Query(from: Option<string>, to: Option<string>, limit: Option<string>)

  /** The JavaScript library behaviour the handlers rely on, taken as given:
      `new Date(text)`, `parseInt(text)` and `Date.prototype.toDateString`
      on a valid date. */
  datatype Runtime = Runtime(
    parseDate: string -> Timestamp,
    parseInt: string -> ParsedInt,
    toDateString: int -> string)

  /** The body of the reply: the rendered entries and their count. */
  datatype LogPage = LogPage(count: nat, log: seq<LogItem>)

  /** JavaScript truthiness of an optional string field: absent and empty
      are falsy, every other string is truthy ("0" included). */
  predicate Truthy(field: Option<string>) {
    field.Some? && field.value != ""
  }

  /** `a <= b` on two Dates: both are compared by time value, and any
      comparison with NaN is false. */
  predicate NotAfter(a: Timestamp, b: Timestamp) {
    a.Some? && b.Some? && a.value <= b.value
  }

  /** The filter's test `logDate >= fromDate && logDate <= toDate`. */
  predicate InRange(date: Timestamp, fromDate: Timestamp, toDate: Timestamp) {
    NotAfter(fromDate, date) && NotAfter(date, toDate)
  }

  /** `a` is obtained from `b` by deleting elements, keeping the order of the
      rest. */
  ghost predicate IsSubsequence<T>(a: seq<T>, b: seq<T>)
    decreases |b|
  {
    a == [] ||
    (b != [] &&
     ((a[0] == b[0] && IsSubsequence(a[1..], b[1..])) || IsSubsequence(a, b[1..])))
  }

  /** A prefix of a subsequence of `b` is itself a subsequence of `b`. */
  lemma {:induction false} PrefixOfSubsequence<T>(p: seq<T>, a: seq<T>, b: seq<T>)
    requires IsSubsequence(a, b) && p <= a
    ensures IsSubsequence(p, b)
    decreases |b|
  {
    if p != [] {
      assert a != [] && b != [];
      if a[0] == b[0] && IsSubsequence(a[1..], b[1..]) {
        PrefixOfSubsequence(p[1..], a[1..], b[1..]);
      } else {
        PrefixOfSubsequence(p, a, b[1..]);
      }
    }
  }

  // ---------------------------------------------------------------------
  // Step 1: the inclusive date-range filter

  /** `logs.filter(log => logDate >= fromDate && logDate <= toDate)`. */
  function FilterByDate(log: seq<Entry>, fromDate: Timestamp, toDate: Timestamp): (r: seq<Entry>)
    ensures |r| <= |log|
    ensures forall i :: 0 <= i < |r| ==> InRange(r[i].date, fromDate, toDate)
  {
    if log == [] then []
    else if InRange(log[0].date, fromDate, toDate) then [log[0]] + FilterByDate(log[1..], fromDate, toDate)
    else FilterByDate(log[1..], fromDate, toDate)
  }

  /** An entry survives the filter exactly when it is in the log and its date
      lies between the two bounds, both ends included; an invalid date, or an
      invalid bound, keeps every entry out. */
  lemma {:induction false} FilterKeeps(log: seq<Entry>, fromDate: Timestamp, toDate: Timestamp, e: Entry)
    ensures e in FilterByDate(log, fromDate, toDate) <==>
              e in log && e.date.Some? && fromDate.Some? && toDate.Some? &&
              fromDate.value <= e.date.value <= toDate.value
  {
    if log != [] {
      FilterKeeps(log[1..], fromDate, toDate, e);
      assert log == [log[0]] + log[1..];
    }
  }

  /** The filtered log keeps the original insertion order. */
  lemma {:induction false} FilterIsSubsequence(log: seq<Entry>, fromDate: Timestamp, toDate: Timestamp)
    ensures IsSubsequence(FilterByDate(log, fromDate, toDate), log)
  {
    if log != [] {
      FilterIsSubsequence(log[1..], fromDate, toDate);
      var rest := FilterByDate(log[1..], fromDate, toDate);
      if InRange(log[0].date, fromDate, toDate) {
        assert ([log[0]] + rest)[1..] == rest;
      }
    }
  }

  /** Filtering a log made of two parts filters each part in place. */
  lemma {:induction false} FilterAppend(a: seq<Entry>, b: seq<Entry>, fromDate: Timestamp, toDate: Timestamp)
    ensures FilterByDate(a + b, fromDate, toDate) == FilterByDate(a, fromDate, toDate) + FilterByDate(b, fromDate, toDate)
  {
    if a == [] {
      assert a + b == b;
    } else {
      assert (a + b)[0] == a[0];
      assert (a + b)[1..] == a[1..] + b;
      FilterAppend(a[1..], b, fromDate, toDate);
    }
  }

  /** When every date lies in the range, the filter changes nothing. */
  lemma {:induction false} FilterAllInRange(log: seq<Entry>, fromDate: Timestamp, toDate: Timestamp)
    requires forall i :: 0 <= i < |log| ==> InRange(log[i].date, fromDate, toDate)
    ensures FilterByDate(log, fromDate, toDate) == log
  {
    if log != [] {
      FilterAllInRange(log[1..], fromDate, toDate);
    }
  }

  /** The range filter runs only when both `from` and `to` are truthy;
      otherwise the log passes through unchanged. */
  predicate RangeActive(q: Query) {
    Truthy(q.from) && Truthy(q.to)
  }

  /** The first step of the handler: `if (from && to) logs = logs.filter(...)`. */
  function DateStage(log: seq<Entry>, q: Query, rt: Runtime): (r: seq<Entry>)
    ensures !RangeActive(q) ==> r == log
    ensures RangeActive(q) ==> r == FilterByDate(log, rt.parseDate(q.from.value), rt.parseDate(q.to.value))
    ensures RangeActive(q) ==>
              forall e :: e in r <==>
                e in log && InRange(e.date, rt.parseDate(q.from.value), rt.parseDate(q.to.value))
  {
    if RangeActive(q) then
      var fromDate := rt.parseDate(q.from.value);
      var toDate := rt.parseDate(q.to.value);
      var r := FilterByDate(log, fromDate, toDate);
      assert forall e :: e in r <==> e in log && InRange(e.date, fromDate, toDate) by {
        forall e ensures e in r <==> e in log && InRange(e.date, fromDate, toDate) {
          FilterKeeps(log, fromDate, toDate, e);
        }
      }
      r
    else log
  }

  /** The date step never reorders or invents entries. */
  lemma DateStageIsSubsequence(log: seq<Entry>, q: Query, rt: Runtime)
    ensures IsSubsequence(DateStage(log, q, rt), log)
  {
    if RangeActive(q) {
      FilterIsSubsequence(log, rt.parseDate(q.from.value), rt.parseDate(q.to.value));
    } else {
      SubsequenceReflexive(log);
    }
  }

  /** Every sequence is a subsequence of itself. */
  lemma {:induction false} SubsequenceReflexive<T>(s: seq<T>)
    ensures IsSubsequence(s, s)
  {
    if s != [] {
      SubsequenceReflexive(s[1..]);
    }
  }

  // ---------------------------------------------------------------------
  // Step 2: truncation by `limit`, with Array.prototype.slice(0, end)

  /** The index at which `slice(0, end)` stops on a sequence of length
      `len`: NaN counts as 0, a negative end counts back from the length, and
      the result is clamped to the range 0 to `len`. */
  function SliceEnd(len: nat, end: ParsedInt): nat {
    match end
    case NaN => 0
    case Int(n) =>
      if n < 0 then (if len + n < 0 then 0 else len + n)
      else if n < len then n
      else len
  }

  /** `s.slice(0, end)`. */
  function SlicePrefix<T>(s: seq<T>, end: ParsedInt): (r: seq<T>)
    ensures r <= s
    ensures end.NaN? ==> r == []
    ensures end.Int? && 0 <= end.value ==> |r| == if end.value < |s| then end.value else |s|
    ensures end.Int? && end.value < 0 ==> |r| == if |s| + end.value < 0 then 0 else |s| + end.value
  {
    s[..SliceEnd(|s|, end)]
  }

  /** A negative end drops that many entries from the back. */
  lemma SliceCountsBack<T>(s: seq<T>, n: int)
    requires n < 0 && -n <= |s|
    ensures SlicePrefix(s, Int(n)) + s[|s| + n..] == s
  {
    assert s[..|s| + n] + s[|s| + n..] == s;
  }

  /** Once a sequence holds at least `n` elements, appending more does not
      change its first `n`. */
  lemma SliceStable<T>(a: seq<T>, b: seq<T>, n: int)
    requires 0 <= n <= |a|
    ensures SlicePrefix(a + b, Int(n)) == SlicePrefix(a, Int(n))
  {
    assert (a + b)[..n] == a[..n];
  }

  /** The second step of the handler: `if (limit) logs = logs.slice(0, parseInt(limit))`. */
  function LimitStage<T>(logs: seq<T>, q: Query, rt: Runtime): (r: seq<T>)
    ensures r <= logs
    ensures !Truthy(q.limit) ==> r == logs
    ensures Truthy(q.limit) && rt.parseInt(q.limit.value) == NaN ==> r == []
    ensures Truthy(q.limit) && rt.parseInt(q.limit.value).Int? ==>
              var n := rt.parseInt(q.limit.value).value;
              |r| == if n < 0 then (if |logs| + n < 0 then 0 else |logs| + n)
                     else if n < |logs| then n else |logs|
  {
    if Truthy(q.limit) then SlicePrefix(logs, rt.parseInt(q.limit.value)) else logs
  }

  // ---------------------------------------------------------------------
  // Step 3: rendering

  /** `new Date(log.date).toDateString()`: "Invalid Date" for an invalid date. */
  function RenderDate(date: Timestamp, rt: Runtime): string {
    match date
    case None => "Invalid Date"
    case Some(ms) => rt.toDateString(ms)
  }

  /** `logs.map(log => ({description, duration, date: ...toDateString()}))`. */
  function Format(logs: seq<Entry>, rt: Runtime): (r: seq<LogItem>)
    ensures |r| == |logs|
    ensures forall i :: 0 <= i < |logs| ==>
              r[i].description == logs[i].description &&
              r[i].duration == logs[i].duration &&
              r[i].date == RenderDate(logs[i].date, rt)
  {
    if logs == [] then []
    else [LogItem(logs[0].description, logs[0].duration, RenderDate(logs[0].date, rt))] + Format(logs[1..], rt)
  }

  /** Rendering a log made of two parts renders each part in place. */
  lemma FormatAppend(a: seq<Entry>, b: seq<Entry>, rt: Runtime)
    ensures Format(a + b, rt) == Format(a, rt) + Format(b, rt)
  {
  }

  // ---------------------------------------------------------------------
  // The whole pipeline

  /** The entries the query selects, before rendering. */
  function Selected(log: seq<Entry>, q: Query, rt: Runtime): seq<Entry> {
    LimitStage(DateStage(log, q, rt), q, rt)
  }

  /** The handler's filter, slice, map and count, in that order. */
  function QueryLog(log: seq<Entry>, q: Query, rt: Runtime): (r: LogPage)
    ensures r.count == |r.log| <= |log|
    ensures log == [] ==> r == LogPage(0, [])
  {
    var logs := DateStage(log, q, rt);
    var logs := LimitStage(logs, q, rt);
    var logs := Format(logs, rt);
    LogPage(|logs|, logs)
  }

  /** The reply renders, item by item and in the log's own order, a
      subsequence of the stored log; with a date range every rendered entry
      lies inside it. */
  lemma QueryLogSelects(log: seq<Entry>, q: Query, rt: Runtime)
    ensures IsSubsequence(Selected(log, q, rt), log)
    ensures |QueryLog(log, q, rt).log| == |Selected(log, q, rt)|
    ensures forall i :: 0 <= i < |Selected(log, q, rt)| ==>
              QueryLog(log, q, rt).log[i] ==
                LogItem(Selected(log, q, rt)[i].description, Selected(log, q, rt)[i].duration,
                        RenderDate(Selected(log, q, rt)[i].date, rt))
    ensures RangeActive(q) ==>
              forall e :: e in Selected(log, q, rt) ==>
                InRange(e.date, rt.parseDate(q.from.value), rt.parseDate(q.to.value))
  {
    DateStageIsSubsequence(log, q, rt);
    PrefixOfSubsequence(Selected(log, q, rt), DateStage(log, q, rt), log);
  }

  /** Without a range and a limit the reply is the whole log, rendered. */
  lemma QueryLogUnfiltered(log: seq<Entry>, q: Query, rt: Runtime)
    requires !RangeActive(q) && !Truthy(q.limit)
    ensures QueryLog(log, q, rt).count == |log|
    ensures forall i :: 0 <= i < |log| ==>
              QueryLog(log, q, rt).log[i] ==
                LogItem(log[i].description, log[i].duration, RenderDate(log[i].date, rt))
  {
  }

  /** A limit of `n >= 0` and no date range: the reply is the first
      `min(n, |log|)` entries of the log, rendered in order (`limit=2` on a
      log of five gives its first two). */
  lemma QueryLogLimitOnly(log: seq<Entry>, q: Query, rt: Runtime)
    requires !RangeActive(q) && Truthy(q.limit)
    requires rt.parseInt(q.limit.value).Int? && 0 <= rt.parseInt(q.limit.value).value
    ensures var n := rt.parseInt(q.limit.value).value;
            QueryLog(log, q, rt).log == Format(log[..if n < |log| then n else |log|], rt)
  {
    var n := rt.parseInt(q.limit.value).value;
    var k := if n < |log| then n else |log|;
    assert LimitStage(log, q, rt) == log[..k];
  }

  /** Without a limit, appending an entry to the log appends its own reply
      (nothing or one item) to the old reply: the log is append-only, and so
      is every unlimited query of it. */
  lemma {:induction false} QueryLogAppend(log: seq<Entry>, e: Entry, q: Query, rt: Runtime)
    requires !Truthy(q.limit)
    ensures QueryLog(log + [e], q, rt).log == QueryLog(log, q, rt).log + QueryLog([e], q, rt).log
    ensures QueryLog(log + [e], q, rt).count <= QueryLog(log, q, rt).count + 1
  {
    if RangeActive(q) {
      FilterAppend(log, [e], rt.parseDate(q.from.value), rt.parseDate(q.to.value));
    }
    FormatAppend(DateStage(log, q, rt), DateStage([e], q, rt), rt);
  }

  /** With a limit of `n` that the filtered log already fills, appending
      entries leaves the reply unchanged: the limit takes the oldest entries,
      not the most recent. */
  lemma {:induction false} QueryLogLimitStable(log: seq<Entry>, more: seq<Entry>, q: Query, rt: Runtime)
    requires Truthy(q.limit) && rt.parseInt(q.limit.value).Int?
    requires 0 <= rt.parseInt(q.limit.value).value <= |DateStage(log, q, rt)|
    ensures QueryLog(log + more, q, rt) == QueryLog(log, q, rt)
  {
    if RangeActive(q) {
      FilterAppend(log, more, rt.parseDate(q.from.value), rt.parseDate(q.to.value));
    }
    assert DateStage(log + more, q, rt) == DateStage(log, q, rt) + DateStage(more, q, rt);
    SliceStable(DateStage(log, q, rt), DateStage(more, q, rt), rt.parseInt(q.limit.value).value);
  }
}
