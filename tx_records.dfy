/**
  The already-parsed shape of a chain node's transaction response: a result
  code, a height string, per-message logs each carrying events, and (on newer
  node versions) a top-level event list. Every event is a type and an ordered
  list of key/value attributes.
*/
module TxRecords {

  datatype Attribute = Attribute(key: string, value: string)

  datatype Event = Event(kind: string, attributes: seq<Attribute>)

  datatype LogEntry = LogEntry(msgIndex: int, log: string, events: seq<Event>)

  datatype TxResponse = TxResponse(
    height: string,
    txHash: string,
    code: int,
    rawLog: string,
    logs: seq<LogEntry>,
    events: seq<Event>,
    timestamp: string)

  datatype Coin = Coin(denom: string, amount: string)

  /**
    The value a scan left in its local variable for `key` after walking the
    attributes in order: the last value written under `key`, or "" when the key
    never occurs.
  */
  function AttrValue(attrs: seq<Attribute>, key: string): string
  {
    if |attrs| == 0 then ""
    else if attrs[|attrs| - 1].key == key then attrs[|attrs| - 1].value
    else AttrValue(attrs[..|attrs| - 1], key)
  }

  /** A repeated key takes the value of its last occurrence. */
  lemma {:induction false} LastValueWins(attrs: seq<Attribute>, key: string, i: int)
    requires 0 <= i < |attrs| && attrs[i].key == key
    requires forall j :: i < j < |attrs| ==> attrs[j].key != key
    ensures AttrValue(attrs, key) == attrs[i].value
    decreases |attrs|
  {
    if i < |attrs| - 1 {
      LastValueWins(attrs[..|attrs| - 1], key, i);
    }
  }

  /** A key that never occurs reads as the empty string. */
  lemma {:induction false} AbsentKeyIsEmpty(attrs: seq<Attribute>, key: string)
    requires forall j :: 0 <= j < |attrs| ==> attrs[j].key != key
    ensures AttrValue(attrs, key) == ""
    decreases |attrs|
  {
    if |attrs| > 0 {
      AbsentKeyIsEmpty(attrs[..|attrs| - 1], key);
    }
  }

  /** A non-empty reading comes from some attribute carrying that key. */
  lemma {:induction false} AttrValueSource(attrs: seq<Attribute>, key: string) returns (i: int)
    requires AttrValue(attrs, key) != ""
    ensures 0 <= i < |attrs| && attrs[i].key == key && attrs[i].value == AttrValue(attrs, key)
    decreases |attrs|
  {
    if attrs[|attrs| - 1].key == key {
      i := |attrs| - 1;
    } else {
      i := AttrValueSource(attrs[..|attrs| - 1], key);
    }
  }

  /** All events of all log entries, in log order. */
  function LogEvents(logs: seq<LogEntry>): seq<Event>
  {
    if |logs| == 0 then [] else LogEvents(logs[..|logs| - 1]) + logs[|logs| - 1].events
  }

  lemma {:induction false} LogEventsAppend(a: seq<LogEntry>, b: seq<LogEntry>)
    ensures LogEvents(a + b) == LogEvents(a) + LogEvents(b)
    decreases |b|
  {
    if |b| == 0 {
      assert a + b == a;
    } else {
      assert (a + b)[..|a + b| - 1] == a + b[..|b| - 1];
      LogEventsAppend(a, b[..|b| - 1]);
    }
  }

  /**
    The events a scanner walks, in the order it walks them: every log entry's
    events first, then (when the scanner looks there) the top-level events.
  */
  function ScannedEvents(tx: TxResponse, withTopLevel: bool): seq<Event>
  {
    LogEvents(tx.logs) + (if withTopLevel then tx.events else [])
  }
}
