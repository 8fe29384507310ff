// Rings of "the last N things", each proved to hold the tail of everything recorded since the last clear:
// history (pkg/fwdapi/history/store.go), log buffer (pkg/fwdapi/logbuffer.go) and
// HTTP log (pkg/fwdmetrics/httpsniff.go).
module RingBuffers {
  import opened Text

  lemma ModAdd(a: nat, n: nat)
    requires a < n
    ensures (a + n) % n == a && a % n == a
  {
  }

  /** The slot of the i-th newest entry when `head` is the next to be written. */
  function Slot(head: nat, i: nat, n: nat): (slot: nat)
    requires head <= n && i < n
    ensures slot == if i < head then head - 1 - i else head - 1 - i + n
  {
    ModAdd(if i < head then head - 1 - i else head - 1 - i + n, n);
    (head - 1 - i + n) % n
  }

  /** The head after a write: one on, and back to 0 past the end. */
  function Next(head: nat, n: nat): (next: nat)
    requires head < n
    ensures next == if head + 1 == n then 0 else head + 1
  {
    ModAdd(if head + 1 == n then 0 else head + 1, n);
    (head + 1) % n
  }

  /** The slots hold the newest `count` entries of what was recorded. */
  ghost predicate Holds<T>(slots: seq<T>, head: nat, count: nat, recorded: seq<T>) {
    && head < |slots| && count == Min(|recorded|, |slots|)
    && forall i :: 0 <= i < count ==> slots[Slot(head, i, |slots|)] == recorded[|recorded| - 1 - i]
  }

  /** Writing at the head and moving it on keeps the tail, one entry longer. */
  lemma WriteHolds<T>(slots: seq<T>, head: nat, count: nat, recorded: seq<T>, x: T)
    requires Holds(slots, head, count, recorded)
    ensures Holds(slots[head := x], Next(head, |slots|), Min(count + 1, |slots|), recorded + [x])
  {
    hide Slot, Next;
    var n, slots' := |slots|, slots[head := x];
    forall i | 0 <= i < Min(count + 1, n)
      ensures slots'[Slot(Next(head, n), i, n)] == (recorded + [x])[|recorded| - i]
    {
      if i > 0 {
        assert Slot(Next(head, n), i, n) == Slot(head, i - 1, n);
      }
    }
  }

  /** The last `count` entries, oldest first. */
  function Tail<T>(s: seq<T>, count: nat): seq<T>
    requires count <= |s|
  {
    s[|s| - count..]
  }

  function Reversed<T>(s: seq<T>): (r: seq<T>)
    ensures |r| == |s| && forall i :: 0 <= i < |s| ==> r[i] == s[|s| - 1 - i]
  {
    seq(|s|, i requires 0 <= i < |s| => s[|s| - 1 - i])
  }

  // ---------- History ----------

  datatype Record<T> = Record(id: int, tag: string, data: T)

  /** The entries a query lets through: all of them for an empty tag. */
  function Matching<T>(s: seq<Record<T>>, tag: string): seq<Record<T>> {
    if s == [] then []
    else if tag == "" || s[0].tag == tag then [s[0]] + Matching(s[1..], tag)
    else Matching(s[1..], tag)
  }

  function First<T>(s: seq<T>, n: nat): seq<T> {
    if n < |s| then s[..n] else s
  }

  lemma {:induction false} MatchingAppend<T>(s: seq<Record<T>>, x: Record<T>, tag: string)
    ensures Matching(s + [x], tag) == Matching(s, tag) + (if tag == "" || x.tag == tag then [x] else [])
  {
    if s == [] {
      assert s + [x] == [x];
    } else {
      assert (s + [x])[1..] == s[1..] + [x];
      MatchingAppend(s[1..], x, tag);
    }
  }

  lemma {:induction false} MatchingAppendAll<T>(s: seq<Record<T>>, t: seq<Record<T>>, tag: string)
    ensures Matching(s + t, tag) == Matching(s, tag) + Matching(t, tag)
  {
    if s == [] {
      assert s + t == t;
    } else {
      assert (s + t)[1..] == s[1..] + t;
      MatchingAppendAll(s[1..], t, tag);
    }
  }

  /** A query keeps exactly the entries of its type or key, in order; an empty one keeps all. */
  lemma {:induction false} MatchingIs<T>(s: seq<Record<T>>, tag: string)
    ensures forall x :: x in Matching(s, tag) <==> x in s && (tag == "" || x.tag == tag)
    ensures tag == "" ==> Matching(s, tag) == s
    ensures (forall x :: x in s ==> x.tag == tag) ==> Matching(s, tag) == s
  {
    if s != [] {
      MatchingIs(s[1..], tag);
    }
  }

  lemma FirstMissesLast<T>(s: seq<Record<T>>, n: nat, x: Record<T>)
    requires x in s && forall i, j :: 0 <= i < j < |s| ==> s[i].id > s[j].id
    ensures x in First(s, n) || (|First(s, n)| == n && forall i :: 0 <= i < n ==> First(s, n)[i].id > x.id)
  {
    var j :| 0 <= j < |s| && s[j] == x;
    if j < n {
      assert x == First(s, n)[j];
    }
  }

  lemma MatchingStep<T>(s: seq<Record<T>>, i: nat, tag: string)
    requires i < |s|
    ensures Matching(s[..0], tag) == []
    ensures Matching(s[..i + 1], tag) == Matching(s[..i], tag) + (if tag == "" || s[i].tag == tag then [s[i]] else [])
  {
    assert s[..i + 1] == s[..i] + [s[i]];
    MatchingAppend(s[..i], s[i], tag);
  }

  /** The scan may stop at the end, or once it has as many as were asked for. */
  lemma MatchingStops<T>(s: seq<Record<T>>, i: nat, tag: string, limit: nat, n: nat)
    requires i <= |s| && limit == Min(n, |s|) && |Matching(s[..i], tag)| <= limit
    requires i == |s| || |Matching(s[..i], tag)| == limit
    ensures Matching(s[..i], tag) == First(Matching(s, tag), n)
  {
    assert s == s[..i] + s[i..];
    MatchingAppendAll(s[..i], s[i..], tag);
    MatchingSize(s, tag);
  }

  lemma {:induction false} MatchingSize<T>(s: seq<Record<T>>, tag: string)
    ensures |Matching(s, tag)| <= |s|
    ensures forall x :: x in Matching(s, tag) ==> x in s && (tag == "" || x.tag == tag)
  {
    if s != [] {
      MatchingSize(s[1..], tag);
    }
  }

  lemma {:induction false} MatchingDescends<T>(s: seq<Record<T>>, tag: string)
    requires forall i, j :: 0 <= i < j < |s| ==> s[i].id > s[j].id
    ensures var r := Matching(s, tag); forall i, j :: 0 <= i < j < |r| ==> r[i].id > r[j].id
  {
    if s != [] {
      MatchingDescends(s[1..], tag);
      MatchingSize(s[1..], tag);
      var rest := Matching(s[1..], tag);
      forall j | 0 <= j < |rest|
        ensures s[0].id > rest[j].id
      {
        assert rest[j] in s[1..];
        var k :| 0 <= k < |s| - 1 && s[1..][k] == rest[j];
        assert s[0].id > s[k + 1].id;
      }
    }
  }

  /** One ring of the history store: events tagged by type, reconnects by service key, errors untagged. */
  class HistoryRing<T> {
    ghost var everything: seq<Record<T>>   // all records ever made
    ghost var cleared: nat                 // how many of them a Clear has dropped
    const zero: Record<T>
    var slots: array<Record<T>>
    var index: nat
    var count: nat
    var nextID: nat

    ghost function Recorded(): seq<Record<T>>
      requires cleared <= |everything|
      reads this
    {
      everything[cleared..]
    }

    ghost predicate Valid()
      reads this, slots
    {
      && cleared <= |everything|
      && Holds(slots[..], index, count, Recorded())
      && nextID == |everything| + 1
      && forall i :: 0 <= i < |everything| ==> everything[i].id == i + 1
    }

    constructor (size: int, default: nat, zero: Record<T>)
      requires default > 0
      ensures this.zero == zero
      ensures Valid() && everything == [] && cleared == 0 && fresh(slots)
      ensures slots.Length == if size <= 0 then default else size
    {
      var n: nat := if size <= 0 then default else size;
      this.zero := zero;
      slots := new Record<T>[n](_ => zero);
      index, count, nextID := 0, 0, 1;
      everything, cleared := [], 0;
    }

    method Add(tag: string, data: T) returns (id: nat)
      requires Valid()
      modifies this, slots
      ensures Valid() && cleared == old(cleared) && slots == old(slots)
      ensures everything == old(everything) + [Record(id, tag, data)]
      ensures id == |old(everything)| + 1
    {
      id := nextID;
      nextID := nextID + 1;
      WriteHolds(slots[..], index, count, Recorded(), Record(id, tag, data));
      assert Recorded() + [Record(id, tag, data)] == (everything + [Record(id, tag, data)])[cleared..];
      slots[index] := Record(id, tag, data);
      index := Next(index, slots.Length);
      if count < slots.Length {
        count := count + 1;
      }
      everything := everything + [Record(id, tag, data)];
    }

    /** What the ring holds, newest first. */
    ghost function Newest(): seq<Record<T>>
      requires Valid()
      reads this, slots
    {
      Reversed(Tail(Recorded(), count))
    }

    lemma NewestAt(i: nat)
      requires Valid() && i < count
      ensures index < slots.Length && Slot(index, i, slots.Length) < slots.Length
      ensures slots[Slot(index, i, slots.Length)] == Newest()[i] == everything[|everything| - 1 - i]
      ensures Newest()[i] in Recorded() && Newest()[i].id == |everything| - i
    {
      assert Recorded()[|Recorded()| - 1 - i] == everything[|everything| - 1 - i];
    }

    /** A stored record has a positive id, so the scans' check for an empty slot never succeeds. */
    lemma RecordAt(i: nat)
      requires Valid() && i < count
      ensures index < slots.Length && i < slots.Length && slots[Slot(index, i, slots.Length)] == Newest()[i]
      ensures Newest()[i].id > 0
    {
      NewestAt(i);
    }

    lemma MatchingNone(tag: string, n: int)
      ensures n > 0 ==> First(Matching<T>([], tag), n) == []
    {
    }

    /** GetEvents and GetReconnects, and GetErrors with an empty tag: the first `n` matches, newest first. */
    method GetRecent(n: int, tag: string) returns (r: seq<Record<T>>)
      requires Valid()
      ensures r == if n <= 0 then [] else First(Matching(Newest(), tag), n)
    {
      hide Slot, Next, Holds, Valid, Newest, Recorded, Reversed, Matching, First;
      r := [];
      NewestSize();
      MatchingNone(tag, n);
      if n <= 0 || count == 0 {
        return;
      }
      var limit := if n > count then count else n;
      ghost var newest := Newest();
      MatchingStep(newest, 0, tag);
      var i := 0;
      while i < count && |r| < limit
        invariant i <= count && |r| <= limit
        invariant r == Matching(newest[..i], tag)
      {
        RecordAt(i);
        var record := slots[Slot(index, i, slots.Length)];
        MatchingStep(newest, i, tag);
        if record.id != 0 && (tag == "" || record.tag == tag) {
          r := r + [record];
        }
        i := i + 1;
      }
      MatchingStops(newest, i, tag, limit, n);
    }

    lemma NewestSize()
      requires Valid()
      ensures |Newest()| == count && (count == 0 ==> Newest() == [])
    {
    }

    /** Whatever a query returns was recorded, and ids strictly fall from one entry to the next. */
    lemma AnswerDescends(n: nat, tag: string)
      requires Valid()
      ensures var r := First(Matching(Newest(), tag), n);
              && (forall i, j :: 0 <= i < j < |r| ==> r[i].id > r[j].id)
              && (forall i :: 0 <= i < |r| ==> r[i] in Recorded() && (tag == "" || r[i].tag == tag))
    {
      var newest := Newest();
      forall i, j | 0 <= i < j < |newest|
        ensures newest[i].id > newest[j].id && newest[j] in Recorded()
      {
        NewestAt(i);
        NewestAt(j);
      }
      forall i | 0 <= i < |newest|
        ensures newest[i] in Recorded()
      {
        NewestAt(i);
      }
      hide Valid, Newest, Recorded, Holds;
      MatchingDescends(newest, tag);
      MatchingSize(newest, tag);
      var r := First(Matching(newest, tag), n);
      forall i | 0 <= i < |r|
        ensures r[i] in Recorded() && (tag == "" || r[i].tag == tag)
      {
        assert r[i] in Matching(newest, tag);
      }
    }

    /** And nothing is passed over: a stored, matching entry that is left out is older than all n that are returned. */
    lemma AnswerMissesOlder(n: nat, tag: string, x: Record<T>)
      requires Valid() && x in Newest() && (tag == "" || x.tag == tag)
      ensures var r := First(Matching(Newest(), tag), n);
              x in r || (|r| == n && forall i :: 0 <= i < n ==> r[i].id > x.id)
    {
      var newest := Newest();
      forall i, j | 0 <= i < j < |newest|
        ensures newest[i].id > newest[j].id
      {
        NewestAt(i);
        NewestAt(j);
      }
      hide Valid, Newest, Recorded, Holds, Matching, First;
      MatchingDescends(newest, tag);
      MatchingIs(newest, tag);
      FirstMissesLast(Matching(newest, tag), n, x);
    }

    /** GetErrors counts what it scans, not what it found. */
    method GetErrors(n: int) returns (r: seq<Record<T>>)
      requires Valid()
      ensures r == if n <= 0 then [] else First(Newest(), n)
    {
      hide Slot, Next, Holds, Valid, Newest, Recorded, Reversed, Matching;
      r := [];
      NewestSize();
      if n <= 0 || count == 0 {
        return;
      }
      var size := if n > count then count else n;
      ghost var newest := Newest();
      var i := 0;
      while i < size && i < count
        invariant i <= size
        invariant r == newest[..i]
      {
        RecordAt(i);
        var record := slots[Slot(index, i, slots.Length)];
        assert record == newest[i];
        if record.id != 0 {
          r := r + [record];
        }
        i := i + 1;
      }
    }

    /** Clear drops the records but not the id counter, so ids stay unique across it. */
    method Clear()
      requires Valid()
      modifies this
      ensures Valid() && everything == old(everything) && Recorded() == []
      ensures fresh(slots) && slots.Length == old(slots.Length)
    {
      var empty := zero;
      slots := new Record<T>[slots.Length](_ => empty);
      index, count := 0, 0;
      cleared := |everything|;
    }
  }

  // ---------- Log buffer ----------

  class LogBuffer<T> {
    ghost var recorded: seq<T>   // since the last Clear
    const entries: array<T>
    var head: nat
    var count: nat

    ghost predicate Valid()
      reads this, entries
    {
      if entries.Length == 0 then head == 0 && count == 0 && recorded == []
      else Holds(entries[..], head, count, recorded)
    }

    constructor (size: nat, zero: T)
      ensures Valid() && recorded == [] && fresh(entries) && entries.Length == size
    {
      entries := new T[size](_ => zero);
      head, count, recorded := 0, 0, [];
    }

    /** A buffer of size zero can be made and read, but not written. */
    method Add(entry: T)
      requires Valid() && entries.Length > 0
      modifies this, entries
      ensures Valid() && recorded == old(recorded) + [entry]
    {
      WriteHolds(entries[..], head, count, recorded, entry);
      entries[head] := entry;
      head := Next(head, entries.Length);
      if count < entries.Length {
        count := count + 1;
      }
      recorded := recorded + [entry];
    }

    /** The last n entries, newest first, at most 10000 of them. */
    method GetLast(n: int) returns (r: seq<T>)
      requires Valid()
      ensures var k := if n <= 0 then 0 else Min(n, Min(count, 10000));
              count == Min(|recorded|, entries.Length) && r == Reversed(Tail(recorded, k))
    {
      r := [];
      if n <= 0 || count == 0 {
        return;
      }
      var size := if n > count then count else n;
      if size > MAX_LOG_BUFFER_SIZE {
        size := MAX_LOG_BUFFER_SIZE;
      }
      for i := 0 to size
        invariant |r| == i && forall j :: 0 <= j < i ==> r[j] == recorded[|recorded| - 1 - j]
      {
        r := r + [entries[Slot(head, i, entries.Length)]];
      }
    }

    method Clear()
      requires Valid()
      modifies this
      ensures Valid() && recorded == []
    {
      head, count, recorded := 0, 0, [];
    }
  }

  const MAX_LOG_BUFFER_SIZE: nat := 10000

  // ---------- HTTP log ----------

  class HTTPLog<T> {
    ghost var recorded: seq<T>   // since the last clear
    const logs: array<T>
    const zero: T
    var logIndex: nat
    var logCount: nat

    ghost predicate Valid()
      reads this, logs
    {
      Holds(logs[..], logIndex, logCount, recorded)
    }

    constructor (maxLogs: int, zero: T)
      ensures Valid() && recorded == [] && fresh(logs) && logs.Length == if maxLogs <= 0 then 50 else maxLogs
    {
      var n: nat := if maxLogs <= 0 then 50 else maxLogs;
      logs := new T[n](_ => zero);
      this.zero := zero;
      logIndex, logCount, recorded := 0, 0, [];
    }

    method AddLog(entry: T)
      requires Valid()
      modifies this, logs
      ensures Valid() && recorded == old(recorded) + [entry]
    {
      WriteHolds(logs[..], logIndex, logCount, recorded, entry);
      logs[logIndex] := entry;
      logIndex := Next(logIndex, logs.Length);
      if logCount < logs.Length {
        logCount := logCount + 1;
      }
      recorded := recorded + [entry];
    }

    /** The last n entries, oldest first; all that are stored when n is not between 1 and their number. */
    method GetLogs(n: int) returns (r: seq<T>)
      requires Valid()
      ensures logCount == Min(|recorded|, logs.Length)
      ensures r == Tail(recorded, if n <= 0 || n > logCount then logCount else n)
    {
      var size := if n <= 0 || n > logCount then logCount else n;
      r := [];
      if size == 0 {
        return;
      }
      hide Forward, Slot;
      for i := 0 to size
        invariant |r| == i && forall j :: 0 <= j < i ==> r[j] == recorded[|recorded| - size + j]
      {
        r := r + [logs[Forward(logIndex, size, i, logs.Length)]];
      }
    }

    /** ClearLogs also zeroes the slots. */
    method ClearLogs()
      requires Valid()
      modifies this, logs
      ensures Valid() && recorded == [] && forall i :: 0 <= i < logs.Length ==> logs[i] == zero
    {
      logIndex, logCount, recorded := 0, 0, [];
      for i := 0 to logs.Length
        invariant logIndex == 0 && logCount == 0 && recorded == []
        invariant forall j :: 0 <= j < i ==> logs[j] == zero
      {
        logs[i] := zero;
      }
    }
  }

  /** Reading `size` entries forward from their start visits the slots of the newest `size`, oldest first. */
  function Forward(head: nat, size: nat, i: nat, n: nat): (slot: nat)
    requires head < n && i < size <= n
    ensures slot == Slot(head, size - 1 - i, n)
  {
    var start := head - size + n;
    ModAdd(if head >= size then head - size else start, n);
    ModAdd(Slot(head, size - 1 - i, n), n);
    (start % n + i) % n
  }
}
