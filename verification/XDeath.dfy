/** The x-death header: how the broker maintains it and how the worker reads its retry count. */
module XDeath {
  import opened Common

  /** The AMQP field values that matter here; every other type is Opaque. */
  datatype Value =
    | Str(text: string)
    | Int64(n: int)
    | Int32(n: int)
    | Table(fields: map<string, Value>)
    | List(items: seq<Value>)
    | Opaque

  type Headers = Option<map<string, Value>>

  /** A message leaving `queue` for its dead-letter exchange, for `reason`. */
  datatype Death = Death(queue: string, reason: string)

  const REJECTED: string := "rejected"
  const EXPIRED: string := "expired"

  /** The item is an entry for deaths of kind d. */
  predicate IsEntry(item: Value, d: Death) {
    && item.Table?
    && "queue" in item.fields && item.fields["queue"] == Str(d.queue)
    && "reason" in item.fields && item.fields["reason"] == Str(d.reason)
  }

  function CountField(fields: map<string, Value>): int {
    if "count" !in fields then 0
    else match fields["count"]
         case Int64(n) => n
         case Int32(n) => n
         case _ => 0
  }

  /** The count of the first entry for d; 0 when there is none. */
  function FirstCount(items: seq<Value>, d: Death): int {
    if items == [] then 0
    else if IsEntry(items[0], d) then CountField(items[0].fields)
    else FirstCount(items[1..], d)
  }

  /** The message was rejected from the queue, says this item of the list. */
  ghost predicate IsRejection(item: Value, queue: string) {
    && item.Table?
    && "queue" in item.fields && item.fields["queue"] == Str(queue)
    && "reason" in item.fields && item.fields["reason"] == Str("rejected")
  }

  /** Item k is the first one about a rejection from the queue. */
  ghost predicate IsFirstRejection(items: seq<Value>, queue: string, k: nat) {
    k < |items| && IsRejection(items[k], queue) && forall j :: 0 <= j < k ==> !IsRejection(items[j], queue)
  }

  /**
   extractRejectedCount, with its early returns. Whatever other headers there are, the first item about a rejection
   from the queue decides; everything missing or malformed counts as zero. If the list is faithful to a history of
   deaths, the result is the number of rejections from the queue.
   */
  method ExtractRejectedCount(headers: Headers, queueName: string) returns (n: int)
    ensures headers.None? ==> n == 0
    ensures headers.Some? && "x-death" !in headers.value ==> n == 0
    ensures headers.Some? && "x-death" in headers.value && !headers.value["x-death"].List? ==> n == 0
    ensures forall items: seq<Value> ::
              headers.Some? && "x-death" in headers.value && headers.value["x-death"] == List(items) ==>
                && n == FirstCount(items, Death(queueName, "rejected"))
                && ((forall k :: 0 <= k < |items| ==> !IsRejection(items[k], queueName)) ==> n == 0)
                && (forall k: nat :: IsFirstRejection(items, queueName, k) ==>
                      var fields := items[k].fields;
                      && ("count" !in fields ==> n == 0)
                      && ("count" in fields && fields["count"].Int64? ==> n == fields["count"].n)
                      && ("count" in fields && fields["count"].Int32? ==> n == fields["count"].n)
                      && ("count" in fields && !fields["count"].Int64? && !fields["count"].Int32? ==> n == 0))
    ensures forall items: seq<Value>, history: seq<Death> ::
              && headers.Some? && "x-death" in headers.value && headers.value["x-death"] == List(items)
              && Represents(items, history)
              ==> n == Occurrences(history, Death(queueName, "rejected"))
  {
    n := ScanRejections(headers, queueName);
    forall items: seq<Value>, history: seq<Death> |
      && headers.Some? && "x-death" in headers.value && headers.value["x-death"] == List(items)
      && Represents(items, history)
      ensures n == Occurrences(history, Death(queueName, "rejected"))
    {
      CountAgreesWithHistory(items, history, Death(queueName, "rejected"));
    }
  }

  /** The scan itself. */
  method ScanRejections(headers: Headers, queueName: string) returns (n: int)
    ensures headers.None? || "x-death" !in headers.value || !headers.value["x-death"].List? ==> n == 0
    ensures headers.Some? && "x-death" in headers.value && headers.value["x-death"].List? ==>
              var items := headers.value["x-death"].items;
              && n == FirstCount(items, Death(queueName, "rejected"))
              && ((forall k :: 0 <= k < |items| ==> !IsRejection(items[k], queueName)) ==> n == 0)
              && (forall k: nat :: IsFirstRejection(items, queueName, k) ==>
                    var fields := items[k].fields;
                    && ("count" !in fields ==> n == 0)
                    && ("count" in fields && fields["count"].Int64? ==> n == fields["count"].n)
                    && ("count" in fields && fields["count"].Int32? ==> n == fields["count"].n)
                    && ("count" in fields && !fields["count"].Int64? && !fields["count"].Int32? ==> n == 0))
  {
    if headers.None? {
      return 0;
    }
    if "x-death" !in headers.value {
      return 0;
    }
    var xDeath := headers.value["x-death"];
    if !xDeath.List? {
      return 0;
    }
    var items := xDeath.items;
    var i := 0;
    while i < |items|
      invariant 0 <= i <= |items|
      invariant FirstCount(items, Death(queueName, REJECTED)) == FirstCount(items[i..], Death(queueName, REJECTED))
      invariant forall j :: 0 <= j < i ==> !IsRejection(items[j], queueName)
    {
      var item := items[i];
      i := i + 1;
      if !item.Table? {
        continue;
      }
      if "queue" !in item.fields || item.fields["queue"] != Str(queueName) {
        continue;
      }
      if "reason" !in item.fields || item.fields["reason"] != Str(REJECTED) {
        continue;
      }
      if "count" !in item.fields {
        return 0;
      }
      match item.fields["count"] {
        case Int64(v) => return v;
        case Int32(v) => return v;
        case _ => return 0;
      }
    }
    return 0;
  }

  // ----- The broker's side -----

  function IndexOf(items: seq<Value>, d: Death): Option<nat> {
    if items == [] then None
    else if IsEntry(items[0], d) then Some(0)
    else match IndexOf(items[1..], d) case None => None case Some(k) => Some(k + 1)
  }

  /** One more death of kind d: its entry is counted up and moved to the front, or created there. */
  function RecordDeath(items: seq<Value>, d: Death): seq<Value> {
    match IndexOf(items, d)
    case None => [Table(map["queue" := Str(d.queue), "reason" := Str(d.reason), "count" := Int64(1)])] + items
    case Some(k) =>
      if k < |items| && items[k].Table?
      then [Table(items[k].fields["count" := Int64(CountField(items[k].fields) + 1)])] + items[..k] + items[k + 1..]
      else items
  }

  function Occurrences(history: seq<Death>, d: Death): nat {
    if history == [] then 0
    else Occurrences(history[..|history| - 1], d) + (if history[|history| - 1] == d then 1 else 0)
  }

  /** `items` is some faithful x-death list for `history`: order is free, and foreign items are allowed. */
  ghost predicate Represents(items: seq<Value>, history: seq<Death>) {
    && (forall i, j, d ::
          0 <= i < |items| && 0 <= j < |items| && IsEntry(items[i], d) && IsEntry(items[j], d) ==> i == j)
    && (forall i, d :: 0 <= i < |items| && IsEntry(items[i], d) ==>
          CountField(items[i].fields) == Occurrences(history, d) > 0)
    && (forall d :: Occurrences(history, d) > 0 ==> exists i :: 0 <= i < |items| && IsEntry(items[i], d))
  }

  lemma {:induction false} IndexOfFinds(items: seq<Value>, d: Death)
    ensures match IndexOf(items, d)
            case None => forall i :: 0 <= i < |items| ==> !IsEntry(items[i], d)
            case Some(k) => k < |items| && IsEntry(items[k], d)
  {
    if items != [] && !IsEntry(items[0], d) {
      IndexOfFinds(items[1..], d);
      if IndexOf(items, d).None? {
        forall i | 0 <= i < |items| ensures !IsEntry(items[i], d) {
          if i > 0 {
            assert items[i] == items[1..][i - 1];
          }
        }
      }
    }
  }

  lemma {:induction false} FirstCountIsAnyCount(items: seq<Value>, d: Death, k: nat)
    requires k < |items| && IsEntry(items[k], d)
    requires forall i :: 0 <= i < |items| && IsEntry(items[i], d) ==> i == k
    ensures FirstCount(items, d) == CountField(items[k].fields)
  {
    if k > 0 {
      assert !IsEntry(items[0], d);
      FirstCountIsAnyCount(items[1..], d, k - 1);
    }
  }

  lemma {:induction false} FirstCountWithoutEntry(items: seq<Value>, d: Death)
    requires forall i :: 0 <= i < |items| ==> !IsEntry(items[i], d)
    ensures FirstCount(items, d) == 0
  {
    if items != [] {
      FirstCountWithoutEntry(items[1..], d);
    }
  }

  /** Whatever the order of the list and whatever else it holds, the reader returns the true number of deaths. */
  lemma CountAgreesWithHistory(items: seq<Value>, history: seq<Death>, d: Death)
    requires Represents(items, history)
    ensures FirstCount(items, d) == Occurrences(history, d)
  {
    if Occurrences(history, d) > 0 {
      var k :| 0 <= k < |items| && IsEntry(items[k], d);
      FirstCountIsAnyCount(items, d, k);
    } else {
      FirstCountWithoutEntry(items, d);
    }
  }

  lemma OccurrencesAppend(history: seq<Death>, d: Death, e: Death)
    ensures Occurrences(history + [d], e) == Occurrences(history, e) + (if d == e then 1 else 0)
  {
    assert (history + [d])[..|history|] == history;
  }

  /** An item is an entry for at most one kind of death. */
  lemma EntryIsForOneDeath(item: Value, d: Death, e: Death)
    requires IsEntry(item, d) && IsEntry(item, e)
    ensures d == e
  {
  }

  lemma RecordNewDeath(items: seq<Value>, history: seq<Death>, d: Death)
    requires Represents(items, history) && IndexOf(items, d).None?
    ensures Represents(RecordDeath(items, d), history + [d])
  {
    IndexOfFinds(items, d);
    var items' := RecordDeath(items, d);
    assert IsEntry(items'[0], d) && CountField(items'[0].fields) == 1;
    assert forall i :: 1 <= i < |items'| ==> items'[i] == items[i - 1];
    assert Occurrences(history, d) == 0;
    forall e ensures Occurrences(history + [d], e) == Occurrences(history, e) + (if d == e then 1 else 0) {
      OccurrencesAppend(history, d, e);
    }
    forall e | Occurrences(history + [d], e) > 0 ensures exists i :: 0 <= i < |items'| && IsEntry(items'[i], e) {
      if e != d {
        var i :| 0 <= i < |items| && IsEntry(items[i], e);
        assert IsEntry(items'[i + 1], e);
      }
    }
  }

  /** Where each item of the list after a repeated death came from. */
  function Origin(i: nat, k: nat): nat {
    if i == 0 then k else if i <= k then i - 1 else i
  }

  /** After a repeated death every item is what it was, its place and the one count apart. */
  lemma RepeatedDeathItems(items: seq<Value>, d: Death, k: nat, items': seq<Value>, i: nat)
    requires k < |items| && IsEntry(items[k], d) && IndexOf(items, d) == Some(k) && items' == RecordDeath(items, d)
    requires i < |items|
    ensures |items'| == |items| && Origin(i, k) < |items|
    ensures forall e :: IsEntry(items'[i], e) <==> IsEntry(items[Origin(i, k)], e)
    ensures if i == 0 then items'[0].Table? && CountField(items'[0].fields) == CountField(items[k].fields) + 1
            else items'[i] == items[Origin(i, k)]
  {
  }

  lemma RecordRepeatedDeath(items: seq<Value>, history: seq<Death>, d: Death, k: nat)
    requires Represents(items, history) && IndexOf(items, d) == Some(k)
    ensures Represents(RecordDeath(items, d), history + [d])
  {
    IndexOfFinds(items, d);
    RepeatedDeathRepresents(items, history, d, k, RecordDeath(items, d));
  }

  lemma RepeatedDeathRepresents(items: seq<Value>, history: seq<Death>, d: Death, k: nat, items': seq<Value>)
    requires Represents(items, history) && IndexOf(items, d) == Some(k) && items' == RecordDeath(items, d)
    requires k < |items| && IsEntry(items[k], d)
    ensures Represents(items', history + [d])
  {
    RepeatedDeathItems(items, d, k, items', 0);
    forall i, j, e | 0 <= i < |items'| && 0 <= j < |items'| && IsEntry(items'[i], e) && IsEntry(items'[j], e)
      ensures i == j
    {
      RepeatedDeathItems(items, d, k, items', i);
      RepeatedDeathItems(items, d, k, items', j);
      assert Origin(i, k) == Origin(j, k);
    }
    forall i, e | 0 <= i < |items'| && IsEntry(items'[i], e)
      ensures CountField(items'[i].fields) == Occurrences(history + [d], e) > 0
    {
      RepeatedDeathItems(items, d, k, items', i);
      OccurrencesAppend(history, d, e);
      assert IsEntry(items[Origin(i, k)], e);
      if i == 0 {
        EntryIsForOneDeath(items[k], d, e);
      }
    }
    forall e | Occurrences(history + [d], e) > 0 ensures exists i :: 0 <= i < |items'| && IsEntry(items'[i], e) {
      OccurrencesAppend(history, d, e);
      if e != d {
        var i :| 0 <= i < |items| && IsEntry(items[i], e);
        var j := if i == k then 0 else if i < k then i + 1 else i;
        RepeatedDeathItems(items, d, k, items', j);
        assert Origin(j, k) == i && IsEntry(items'[j], e);
      }
    }
  }

  /** The broker keeps its list faithful, one death at a time. */
  lemma RecordDeathRepresents(items: seq<Value>, history: seq<Death>, d: Death)
    requires Represents(items, history)
    ensures Represents(RecordDeath(items, d), history + [d])
  {
    match IndexOf(items, d)
    case None => RecordNewDeath(items, history, d);
    case Some(k) => RecordRepeatedDeath(items, history, d, k);
  }

  function RecordAll(history: seq<Death>): seq<Value> {
    if history == [] then [] else RecordDeath(RecordAll(history[..|history| - 1]), history[|history| - 1])
  }

  lemma {:induction false} RecordAllRepresents(history: seq<Death>)
    ensures Represents(RecordAll(history), history)
  {
    if history != [] {
      var init, last := history[..|history| - 1], history[|history| - 1];
      RecordAllRepresents(init);
      RecordDeathRepresents(RecordAll(init), init, last);
      assert init + [last] == history;
    }
  }

  /** After any sequence of rejections and expiries, the reader returns exactly the rejections from that queue. */
  lemma ReaderCountsRejections(history: seq<Death>, queue: string)
    ensures FirstCount(RecordAll(history), Death(queue, REJECTED)) == Occurrences(history, Death(queue, REJECTED))
  {
    RecordAllRepresents(history);
    CountAgreesWithHistory(RecordAll(history), history, Death(queue, REJECTED));
  }
}
