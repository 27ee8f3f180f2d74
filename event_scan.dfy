/**
  The packet scanners of the probe scripts all walk a transaction's events the
  same way: for each event of the wanted type, copy the attributes of interest
  into local strings (a later attribute with the same key overwrites an earlier
  one), then test those locals; the first event that passes wins. They differ
  only in the event type, the keys and tests, and whether the top-level event
  list is walked after the log entries. This module is that scanner, with the
  type and the tests as a Filter.
*/
module EventScan {
  import opened Wrappers
  import opened TxRecords

  /** A test on one attribute's value: equal to a given text, or non-empty. */
  datatype Requirement = Equals(key: string, expected: string) | NonEmpty(key: string)

  datatype Filter = Filter(kind: string, reqs: seq<Requirement>)

  predicate Holds(r: Requirement, v: string)
  {
    match r
    case Equals(_, w) => v == w
    case NonEmpty(_) => v != ""
  }

  /** The locals a scan holds for the filter's keys after reading all of `attrs`. */
  function Values(attrs: seq<Attribute>, reqs: seq<Requirement>): seq<string>
  {
    seq(|reqs|, j requires 0 <= j < |reqs| => AttrValue(attrs, reqs[j].key))
  }

  predicate Satisfied(vals: seq<string>, reqs: seq<Requirement>)
  {
    |vals| == |reqs| && forall j :: 0 <= j < |reqs| ==> Holds(reqs[j], vals[j])
  }

  predicate Qualifies(e: Event, f: Filter)
  {
    e.kind == f.kind && Satisfied(Values(e.attributes, f.reqs), f.reqs)
  }

  predicate NoneQualify(evs: seq<Event>, f: Filter)
  {
    forall i :: 0 <= i < |evs| ==> !Qualifies(evs[i], f)
  }

  /** The locals of the first qualifying event, or None when no event qualifies. */
  function FirstHit(evs: seq<Event>, f: Filter): (r: Option<seq<string>>)
    ensures r.None? <==> NoneQualify(evs, f)
    ensures r.Some? ==> |r.value| == |f.reqs| && Satisfied(r.value, f.reqs)
  {
    if |evs| == 0 then None
    else if Qualifies(evs[0], f) then Some(Values(evs[0].attributes, f.reqs))
    else
      assert NoneQualify(evs, f) <==> NoneQualify(evs[1..], f) by {
        if NoneQualify(evs[1..], f) {
          forall i | 0 <= i < |evs| ensures !Qualifies(evs[i], f) {
            if i > 0 { assert evs[i] == evs[1..][i - 1]; }
          }
        }
      }
      FirstHit(evs[1..], f)
  }

  /** The event FirstHit reports is the first qualifying one. */
  lemma {:induction false} FirstHitPosition(evs: seq<Event>, f: Filter) returns (i: int)
    requires FirstHit(evs, f).Some?
    ensures 0 <= i < |evs| && Qualifies(evs[i], f)
    ensures FirstHit(evs, f).value == Values(evs[i].attributes, f.reqs)
    ensures NoneQualify(evs[..i], f)
    decreases |evs|
  {
    if Qualifies(evs[0], f) {
      i := 0;
    } else {
      var k := FirstHitPosition(evs[1..], f);
      i := k + 1;
      assert evs[i] == evs[1..][k];
      forall j | 0 <= j < i ensures !Qualifies(evs[..i][j], f) {
        if j > 0 { assert evs[..i][j] == evs[1..][..k][j - 1]; }
      }
    }
  }

  /** Events before the first qualifying one are skipped without effect. */
  lemma {:induction false} FirstHitSkip(p: seq<Event>, q: seq<Event>, f: Filter)
    requires NoneQualify(p, f)
    ensures FirstHit(p + q, f) == FirstHit(q, f)
    decreases |p|
  {
    if |p| > 0 {
      assert (p + q)[0] == p[0];
      assert (p + q)[1..] == p[1..] + q;
      FirstHitSkip(p[1..], q, f);
    } else {
      assert p + q == q;
    }
  }

  /** A qualifying event ahead of all others wins, whatever follows it. */
  lemma FirstHitHere(e: Event, rest: seq<Event>, f: Filter)
    requires Qualifies(e, f)
    ensures FirstHit([e] + rest, f) == Some(Values(e.attributes, f.reqs))
  {
    assert ([e] + rest)[0] == e;
  }

  /** Once a qualifying event has been met, what follows it is never looked at. */
  lemma {:induction false} FirstHitKeep(p: seq<Event>, q: seq<Event>, f: Filter)
    requires FirstHit(p, f).Some?
    ensures FirstHit(p + q, f) == FirstHit(p, f)
    decreases |p|
  {
    assert (p + q)[0] == p[0];
    if !Qualifies(p[0], f) {
      assert (p + q)[1..] == p[1..] + q;
      FirstHitKeep(p[1..], q, f);
    }
  }

  /** The log events split at log entry `li`. */
  lemma {:induction false} LogEventsAround(logs: seq<LogEntry>, li: int)
    requires 0 <= li < |logs|
    ensures LogEvents(logs) == LogEvents(logs[..li]) + (logs[li].events + LogEvents(logs[li + 1..]))
    ensures LogEvents(logs[..li + 1]) == LogEvents(logs[..li]) + logs[li].events
  {
    var head, rest := logs[..li + 1], logs[li + 1..];
    assert head[..li] == logs[..li] && head[li] == logs[li];
    assert LogEvents(head) == LogEvents(logs[..li]) + logs[li].events;
    assert logs == head + rest;
    LogEventsAppend(head, rest);
  }

  /** The innermost loop: copy each attribute of interest into its local, in order. */
  method ReadAttributes(attrs: seq<Attribute>, reqs: seq<Requirement>) returns (vals: seq<string>)
    ensures vals == Values(attrs, reqs)
  {
    vals := seq(|reqs|, _ => "");
    var k := 0;
    while k < |attrs|
      invariant 0 <= k <= |attrs|
      invariant |vals| == |reqs|
      invariant forall j :: 0 <= j < |reqs| ==> vals[j] == AttrValue(attrs[..k], reqs[j].key)
    {
      var a := attrs[k];
      assert attrs[..k + 1][..k] == attrs[..k];
      vals := seq(|reqs|, j requires 0 <= j < |reqs| => if a.key == reqs[j].key then a.value else vals[j]);
      k := k + 1;
    }
    assert attrs[..k] == attrs;
  }

  /**
    The loop over one event list: the locals of the first event of the
    filter's type whose locals pass all of the filter's tests.
  */
  method ScanEvents(evs: seq<Event>, f: Filter) returns (hit: Option<seq<string>>)
    ensures hit == FirstHit(evs, f)
  {
    var i := 0;
    while i < |evs|
      invariant 0 <= i <= |evs|
      invariant NoneQualify(evs[..i], f)
    {
      var e := evs[i];
      if e.kind == f.kind {
        var vals := ReadAttributes(e.attributes, f.reqs);
        if Satisfied(vals, f.reqs) {
          assert evs == evs[..i] + ([e] + evs[i + 1..]);
          FirstHitSkip(evs[..i], [e] + evs[i + 1..], f);
          FirstHitHere(e, evs[i + 1..], f);
          return Some(vals);
        }
      }
      assert evs[..i + 1] == evs[..i] + [e];
      i := i + 1;
    }
    assert evs[..i] == evs;
    return None;
  }

  /** A hit in log entry `li`, after entries with none, is the hit of the whole scan. */
  lemma HitInLogEntry(tx: TxResponse, withTopLevel: bool, li: int, f: Filter)
    requires 0 <= li < |tx.logs|
    requires NoneQualify(LogEvents(tx.logs[..li]), f)
    requires FirstHit(tx.logs[li].events, f).Some?
    ensures FirstHit(ScannedEvents(tx, withTopLevel), f) == FirstHit(tx.logs[li].events, f)
  {
    LogEventsAround(tx.logs, li);
    var later := LogEvents(tx.logs[li + 1..]) + (if withTopLevel then tx.events else []);
    assert ScannedEvents(tx, withTopLevel) == LogEvents(tx.logs[..li]) + (tx.logs[li].events + later);
    FirstHitSkip(LogEvents(tx.logs[..li]), tx.logs[li].events + later, f);
    FirstHitKeep(tx.logs[li].events, later, f);
  }

  /**
    Walk the log entries' events in order, then (when `withTopLevel`) the
    top-level events; the first qualifying event anywhere wins.
  */
  method ScanTx(tx: TxResponse, f: Filter, withTopLevel: bool) returns (hit: Option<seq<string>>)
    ensures hit == FirstHit(ScannedEvents(tx, withTopLevel), f)
  {
    var top := if withTopLevel then tx.events else [];
    var li := 0;
    while li < |tx.logs|
      invariant 0 <= li <= |tx.logs|
      invariant NoneQualify(LogEvents(tx.logs[..li]), f)
    {
      hit := ScanEvents(tx.logs[li].events, f);
      if hit.Some? {
        HitInLogEntry(tx, withTopLevel, li, f);
        return;
      }
      LogEventsAround(tx.logs, li);
      FirstHitSkip(LogEvents(tx.logs[..li]), tx.logs[li].events, f);
      li := li + 1;
    }
    assert tx.logs[..li] == tx.logs;
    FirstHitSkip(LogEvents(tx.logs), top, f);
    hit := ScanEvents(top, f);
  }
}
