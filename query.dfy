/**
 * The message query the correlation check is built on: the episodic metric
 * reports whose time stamp lies in a window, in ascending time order with
 * insertion order breaking ties, and the first of them that carries a given
 * handle.
 */
module Query {
  import opened Wrappers
  import opened Messages

  /** A stored message with its sequence number, i.e. its position in insertion order. */
  datatype Entry = Entry(seqNo: nat, msg: Message)

  /** x is an episodic metric report captured inside [lo, hi] (both bounds inclusive). */
  predicate IsReportIn(x: Message, lo: int, hi: int) {
    x.kind == EpisodicMetricReport && lo <= x.timestamp <= hi
  }

  /** a comes strictly before b: earlier time stamp, or the same time stamp and stored earlier. */
  predicate Precedes(a: Entry, b: Entry) {
    a.msg.timestamp < b.msg.timestamp || (a.msg.timestamp == b.msg.timestamp && a.seqNo < b.seqNo)
  }

  /** e is the message stored at position e.seqNo. */
  predicate Stored(e: Entry, msgs: seq<Message>) {
    e.seqNo < |msgs| && msgs[e.seqNo] == e.msg
  }

  /** e is a stored episodic metric report captured inside [lo, hi]. */
  predicate InWindow(e: Entry, msgs: seq<Message>, lo: int, hi: int) {
    Stored(e, msgs) && IsReportIn(e.msg, lo, hi)
  }

  /** The report of entry e carries a state for handle h. */
  predicate Carries(e: Entry, h: string) {
    h in e.msg.states
  }

  /** Some episodic metric report was captured inside [lo, hi]. */
  predicate AnyReportIn(msgs: seq<Message>, lo: int, hi: int) {
    exists i :: 0 <= i < |msgs| && IsReportIn(msgs[i], lo, hi)
  }

  /** Some episodic metric report captured inside [lo, hi] carries a state for handle h. */
  predicate CarriedIn(msgs: seq<Message>, lo: int, hi: int, h: string) {
    exists i :: 0 <= i < |msgs| && IsReportIn(msgs[i], lo, hi) && h in msgs[i].states
  }

  /**
   * e is the report that the check must judge: a stored report inside the
   * window that carries h, and no other such report precedes it.
   */
  ghost predicate IsEarliestWithHandle(e: Entry, msgs: seq<Message>, lo: int, hi: int, h: string) {
    InWindow(e, msgs, lo, hi) && Carries(e, h) &&
    forall x {:trigger InWindow(x, msgs, lo, hi)} :: InWindow(x, msgs, lo, hi) && Carries(x, h) ==> !Precedes(x, e)
  }

  /** No element of s precedes an element stored before it in s. */
  predicate TimeOrdered(s: seq<Entry>) {
    forall i, j :: 0 <= i < j < |s| ==> !Precedes(s[j], s[i])
  }

  /** The reports inside [lo, hi], numbered by their position in the store, in insertion order. */
  function ReportsInWindow(msgs: seq<Message>, lo: int, hi: int): (r: seq<Entry>)
    ensures forall e :: e in r <==> InWindow(e, msgs, lo, hi)
    decreases |msgs|
  {
    if msgs == [] then []
    else
      var n := |msgs| - 1;
      var earlier := ReportsInWindow(msgs[..n], lo, hi);
      assert forall e :: Stored(e, msgs[..n]) <==> Stored(e, msgs) && e.seqNo < n;
      if IsReportIn(msgs[n], lo, hi) then earlier + [Entry(n, msgs[n])] else earlier
  }

  /** Inserts e into a time-ordered sequence, after every entry that precedes it. */
  function InsertByTime(e: Entry, s: seq<Entry>): (r: seq<Entry>)
    requires TimeOrdered(s)
    ensures TimeOrdered(r)
    ensures multiset(r) == multiset(s) + multiset{e}
  {
    if s == [] then [e]
    else if Precedes(s[0], e) then
      var rest := InsertByTime(e, s[1..]);
      assert s == [s[0]] + s[1..];
      InsertAfterHead(e, s, rest);
      [s[0]] + rest
    else
      [e] + s
  }

  /** The ordering step of InsertByTime when e goes behind the head of s. */
  lemma InsertAfterHead(e: Entry, s: seq<Entry>, rest: seq<Entry>)
    requires s != [] && TimeOrdered(s) && Precedes(s[0], e)
    requires TimeOrdered(rest) && multiset(rest) == multiset(s[1..]) + multiset{e}
    ensures TimeOrdered([s[0]] + rest)
  {
    var r := [s[0]] + rest;
    forall i, j | 0 <= i < j < |r| ensures !Precedes(r[j], r[i]) {
      if i == 0 {
        var x := rest[j - 1];
        assert x in multiset(rest);
        if x != e {
          assert x in multiset(s[1..]);
          var k :| 0 <= k < |s[1..]| && s[1..][k] == x;
          assert s[k + 1] == x;
        }
      } else {
        assert r[i] == rest[i - 1] && r[j] == rest[j - 1];
      }
    }
  }

  /** Sorts entries by (time stamp, sequence number). */
  function SortByTime(s: seq<Entry>): (r: seq<Entry>)
    ensures TimeOrdered(r)
    ensures multiset(r) == multiset(s)
  {
    if s == [] then []
    else
      assert s == [s[0]] + s[1..];
      InsertByTime(s[0], SortByTime(s[1..]))
  }

  /**
   * The stored reports inside [lo, hi] in ascending time order, ties in
   * insertion order: what the message query returns.
   */
  function TimeOrderedReports(msgs: seq<Message>, lo: int, hi: int): (r: seq<Entry>)
    ensures TimeOrdered(r)
    ensures forall e :: e in r <==> InWindow(e, msgs, lo, hi)
    ensures r == [] <==> !AnyReportIn(msgs, lo, hi)
  {
    var s := ReportsInWindow(msgs, lo, hi);
    var r := SortByTime(s);
    assert forall e :: e in r <==> e in s by {
      forall e ensures e in r <==> e in s {
        assert e in r <==> e in multiset(r);
      }
    }
    assert AnyReportIn(msgs, lo, hi) ==> r != [] by {
      if AnyReportIn(msgs, lo, hi) {
        var i :| 0 <= i < |msgs| && IsReportIn(msgs[i], lo, hi);
        assert InWindow(Entry(i, msgs[i]), msgs, lo, hi);
        assert Entry(i, msgs[i]) in r;
      }
    }
    assert r != [] ==> AnyReportIn(msgs, lo, hi) by {
      if r != [] {
        assert r[0] in r;
        assert IsReportIn(msgs[r[0].seqNo], lo, hi);
      }
    }
    r
  }

  /** The position of the first entry of s that carries a state for h. */
  function FirstCarrying(s: seq<Entry>, h: string): (r: Option<nat>)
    ensures r.None? <==> forall k :: 0 <= k < |s| ==> h !in s[k].msg.states
    ensures r.Some? ==> r.value < |s| && h in s[r.value].msg.states &&
                        forall j :: 0 <= j < r.value ==> h !in s[j].msg.states
  {
    if s == [] then None
    else if h in s[0].msg.states then Some(0)
    else
      match FirstCarrying(s[1..], h)
      case None => None
      case Some(k) => Some(k + 1)
  }

  /** In a time-ordered sequence the first entry carrying h precedes no other entry carrying h. */
  lemma FirstCarryingIsEarliest(s: seq<Entry>, h: string, k: nat)
    requires TimeOrdered(s)
    requires FirstCarrying(s, h) == Some(k)
    ensures forall x :: x in s && Carries(x, h) ==> !Precedes(x, s[k])
  {
    forall x | x in s && Carries(x, h) ensures !Precedes(x, s[k]) {
      var j :| 0 <= j < |s| && s[j] == x;
      assert k <= j;
    }
  }

  /**
   * The report the check judges for handle h: the first one carrying h in the
   * time-ordered reports of the window.
   */
  function FirstReportWithHandle(msgs: seq<Message>, lo: int, hi: int, h: string): (r: Option<Entry>)
    ensures r.None? <==> !CarriedIn(msgs, lo, hi, h)
    ensures r.Some? ==> IsEarliestWithHandle(r.value, msgs, lo, hi, h)
  {
    var reports := TimeOrderedReports(msgs, lo, hi);
    assert forall i :: 0 <= i < |msgs| && IsReportIn(msgs[i], lo, hi) ==> Entry(i, msgs[i]) in reports;
    match FirstCarrying(reports, h)
    case None =>
      None
    case Some(k) =>
      FirstCarryingIsEarliest(reports, h, k);
      assert reports[k] in reports;
      Some(reports[k])
  }

  /** At most one entry is the earliest report carrying h. */
  lemma EarliestIsUnique(a: Entry, b: Entry, msgs: seq<Message>, lo: int, hi: int, h: string)
    requires IsEarliestWithHandle(a, msgs, lo, hi, h)
    requires IsEarliestWithHandle(b, msgs, lo, hi, h)
    ensures a == b
  {
    assert InWindow(a, msgs, lo, hi) && InWindow(b, msgs, lo, hi);
  }

  /** The earliest report carrying h is the one the time-ordered query yields first. */
  lemma EarliestIsFirst(msgs: seq<Message>, lo: int, hi: int, h: string, e: Entry)
    requires IsEarliestWithHandle(e, msgs, lo, hi, h)
    ensures AnyReportIn(msgs, lo, hi)
    ensures FirstReportWithHandle(msgs, lo, hi, h) == Some(e)
  {
    assert IsReportIn(msgs[e.seqNo], lo, hi) && h in msgs[e.seqNo].states;
    var first := FirstReportWithHandle(msgs, lo, hi, h);
    EarliestIsUnique(first.value, e, msgs, lo, hi, h);
  }

  /**
   * Appending messages that are not reports in [lo, hi] carrying h keeps the
   * window's reports present and leaves the first report carrying h as it was.
   */
  lemma AppendUnrelated(msgs: seq<Message>, extra: seq<Message>, lo: int, hi: int, h: string)
    requires forall x :: x in extra ==> !IsReportIn(x, lo, hi) || h !in x.states
    ensures AnyReportIn(msgs + extra, lo, hi) == (AnyReportIn(msgs, lo, hi) || AnyReportIn(extra, lo, hi))
    ensures FirstReportWithHandle(msgs, lo, hi, h) == FirstReportWithHandle(msgs + extra, lo, hi, h)
  {
    var all := msgs + extra;
    assert forall k :: 0 <= k < |msgs| ==> all[k] == msgs[k];
    assert forall k :: |msgs| <= k < |all| ==> all[k] == extra[k - |msgs|];
    assert forall k :: 0 <= k < |extra| ==> all[k + |msgs|] == extra[k];
    if CarriedIn(msgs, lo, hi, h) {
      var e := FirstReportWithHandle(msgs, lo, hi, h).value;
      assert forall x :: InWindow(x, all, lo, hi) && Carries(x, h) ==> InWindow(x, msgs, lo, hi) by {
        forall x | InWindow(x, all, lo, hi) && Carries(x, h) ensures InWindow(x, msgs, lo, hi) {
        }
      }
      assert InWindow(e, all, lo, hi);
      EarliestIsFirst(all, lo, hi, h, e);
    } else {
      assert !CarriedIn(all, lo, hi, h) by {
        if CarriedIn(all, lo, hi, h) {
          assert false;
        }
      }
    }
  }
}
