/**
 * The in-memory request log of server.js (`requestLogs`): every
 * `/api/translate` call that gets past reading its text pushes an entry,
 * the oldest entry is shifted out once there are more than 100, and the
 * handler later overwrites the entry's `status` in place.
 */
module RequestLog {
  import opened Common

  /** At most this many entries are kept. */
  const Capacity: nat := 100

  /** The log keeps at most this many characters of the request text. */
  const PreviewLength: nat := 50

  /** `/api/status` shows at most this many of the newest entries. */
  const RecentCount: nat := 10

  /** `'pending'`, `'success'`, `'error'`. */
  datatype LogStatus = Pending | Succeeded | Errored

  /** The last `n` elements of `s` (all of `s` when it is shorter). */
  function LastN<T>(s: seq<T>, n: nat): (r: seq<T>)
    ensures |r| == if |s| <= n then |s| else n
    ensures r == s[|s| - |r|..]
  {
    if |s| <= n then s else s[|s| - n..]
  }

  /** `text.substring(0, 50)`. */
  function Preview(text: string): (p: string)
    ensures |p| == if |text| <= PreviewLength then |text| else PreviewLength
    ensures p == text[..|p|]
  {
    if |text| <= PreviewLength then text else text[..PreviewLength]
  }

  /**
   * `requestLogs.push(e); if (requestLogs.length > 100) requestLogs.shift();`
   * on a log that already respects the capacity.
   */
  function Appended<T>(log: seq<T>, e: T): (r: seq<T>)
    requires |log| <= Capacity
    ensures r == LastN(log + [e], Capacity)
    ensures |r| <= Capacity && r[|r| - 1] == e
    ensures |log| < Capacity ==> r == log + [e]
    ensures |log| == Capacity ==> r == log[1..] + [e]
  {
    var pushed := log + [e];
    if |pushed| > Capacity then pushed[1..] else pushed
  }

  /** Appending one element after another, as successive requests do. */
  function AppendAll<T>(log: seq<T>, es: seq<T>): (r: seq<T>)
    requires |log| <= Capacity
    ensures |r| <= Capacity
    decreases |es|
  {
    if es == [] then log else AppendAll(Appended(log, es[0]), es[1..])
  }

  /** The last `n` elements of a concatenation whose second part has at
      least `n` elements lie in that part. */
  lemma LastNOfLongTail<T>(p: seq<T>, q: seq<T>, n: nat)
    requires |q| >= n
    ensures LastN(p + q, n) == LastN(q, n)
  {
    assert (p + q)[|p|..] == q;
    assert (p + q)[|p + q| - n..] == (p + q)[|p|..][|q| - n..];
  }

  /** Cutting a prefix off before appending does not change the last `n`
      elements, as long as at least `n` elements are kept. */
  lemma LastNAfterTrim<T>(s: seq<T>, t: seq<T>, n: nat)
    ensures LastN(LastN(s, n) + t, n) == LastN(s + t, n)
  {
    if |s| > n {
      var u := s[|s| - n..];
      var head := s[..|s| - n];
      assert LastN(s, n) == u;
      assert s + t == head + (u + t) by {
        assert s == head + u;
      }
      LastNOfLongTail(head, u + t, n);
    }
  }

  /**
   * However many requests arrive, the log holds exactly the newest 100 of
   * all entries ever pushed, oldest first: only the oldest are dropped.
   */
  lemma {:induction false} LogKeepsNewest<T>(log: seq<T>, es: seq<T>)
    requires |log| <= Capacity
    ensures AppendAll(log, es) == LastN(log + es, Capacity)
    decreases |es|
  {
    if es != [] {
      var pushed := log + [es[0]];
      var next := Appended(log, es[0]);
      calc {
        AppendAll(log, es);
        AppendAll(next, es[1..]);
        { LogKeepsNewest(next, es[1..]); }
        LastN(next + es[1..], Capacity);
        { LastNAfterTrim(pushed, es[1..], Capacity); }
        LastN(pushed + es[1..], Capacity);
        { assert pushed + es[1..] == log + es; }
        LastN(log + es, Capacity);
      }
    }
  }

  /** One element of `requestLogs`; only its `status` changes after creation. */
  class LogEntry {
    const text: string
    const targetLang: Option<string>
    var status: LogStatus

    /** Lines 131-136 (the timestamp is not modelled). */
    constructor (requestText: string, targetLang: Option<string>)
      ensures text == Preview(requestText) && this.targetLang == targetLang && status == Pending
    {
      text := Preview(requestText);
      this.targetLang := targetLang;
      status := Pending;
    }
  }

  /** A log entry as `/api/status` serialises it. */
  datatype LogRecord = LogRecord(text: string, targetLang: Option<string>, status: LogStatus)

  /** `requestLogs`. */
  class RequestLog {
    var entries: seq<LogEntry>

    predicate Valid()
      reads this
    {
      |entries| <= Capacity
    }

    /** Line 37. */
    constructor ()
      ensures entries == [] && Valid()
    {
      entries := [];
    }

    /** Lines 137-138. */
    method Append(e: LogEntry)
      requires Valid()
      modifies this
      ensures Valid()
      ensures entries == Appended(old(entries), e)
    {
      entries := entries + [e];
      if |entries| > Capacity {
        entries := entries[1..];
      }
    }

    /** `requestLogs.slice(-10)` (line 245): the newest entries, oldest first. */
    function Recent(): (r: seq<LogEntry>)
      reads this
      ensures |r| == if |entries| <= RecentCount then |entries| else RecentCount
      ensures forall i :: 0 <= i < |r| ==> r[i] == entries[|entries| - |r| + i]
      ensures forall e :: e in r ==> e in entries
    {
      LastN(entries, RecentCount)
    }
  }

  /** Log entries as `/api/status` serialises them, with their current status. */
  function Records(es: seq<LogEntry>): (r: seq<LogRecord>)
    reads es
    ensures |r| == |es|
    ensures forall i :: 0 <= i < |es| ==> r[i] == LogRecord(es[i].text, es[i].targetLang, es[i].status)
  {
    seq(|es|, i requires 0 <= i < |es| reads es => LogRecord(es[i].text, es[i].targetLang, es[i].status))
  }

  /**
   * `requestLogs.slice(-10)` as `/api/status` serialises it: the newest
   * (at most ten) entries, oldest first, each with its current status.
   */
  function RecentRecords(log: RequestLog): (r: seq<LogRecord>)
    reads log, log.entries
    ensures |r| == if |log.entries| <= RecentCount then |log.entries| else RecentCount
    ensures forall i :: 0 <= i < |r| ==>
      var e := log.entries[|log.entries| - |r| + i];
      r[i] == LogRecord(e.text, e.targetLang, e.status)
  {
    var recent := log.Recent();
    Records(recent)
  }
}
