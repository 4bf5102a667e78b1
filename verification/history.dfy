/**
  The bounded history log of shell.c. The program keeps it as four parallel
  arrays of `HistoryMaxItems` slots (command text, pid, start time, duration)
  plus a length; `Arrays` models that layout and `View` reads it as one
  sequence of `Entry` records, the first `len` slots of each array zipped.

  `Add` is `add_to_history` on the record view; `AddToHistory` is the same
  operation on the four arrays, shifting each with its own memmove, and its
  contract states that the arrays stay index-aligned: their view changes
  exactly as `Add` says.

  Clock readings and durations are whole seconds (`time_t` has one-second
  resolution, so `difftime` of two readings is an integer).
 */
module History {
  import opened Seqs

  const HistoryMaxItems: nat := 100

  /** One recorded command: its text, its process id, the clock reading taken
      when it was recorded, and its duration in seconds. */
  datatype Entry = Entry(cmd: string, pid: int, startTime: int, duration: int)

  predicate Bounded(h: seq<Entry>) {
    |h| <= HistoryMaxItems
  }

  /**
    `add_to_history` on the record view. When the copy of the command text
    cannot be made (`dupOk` false) nothing changes. Otherwise, below capacity
    the entry is appended; at capacity the oldest entry is dropped, the rest
    move down one place and the entry lands in the last slot.
   */
  function Add(h: seq<Entry>, cmd: string, pid: int, now: int, duration: int, dupOk: bool): (r: seq<Entry>)
    requires Bounded(h)
    ensures Bounded(r)
    ensures !dupOk ==> r == h
    ensures dupOk ==> |r| == (if |h| < HistoryMaxItems then |h| + 1 else HistoryMaxItems)
    ensures dupOk ==> r[|r| - 1] == Entry(cmd, pid, now, duration)
    ensures dupOk && |h| < HistoryMaxItems ==> forall i :: 0 <= i < |h| ==> r[i] == h[i]
    ensures dupOk && |h| == HistoryMaxItems ==> forall i :: 0 <= i < HistoryMaxItems - 1 ==> r[i] == h[i + 1]
  {
    if !dupOk then h
    else (if |h| == HistoryMaxItems then h[1..] else h) + [Entry(cmd, pid, now, duration)]
  }

  /** Recording an entry whose text copy succeeds. */
  function Insert(h: seq<Entry>, e: Entry): seq<Entry>
    requires Bounded(h)
  {
    Add(h, e.cmd, e.pid, e.startTime, e.duration, true)
  }

  /** Recording the entries `es` one after another. */
  function AddAll(h: seq<Entry>, es: seq<Entry>): (r: seq<Entry>)
    requires Bounded(h)
    decreases |es|
  {
    if |es| == 0 then h else AddAll(Insert(h, es[0]), es[1..])
  }

  /** How many of `n` entries in a row do not fit in the log. */
  function Overflow(n: nat): (k: nat) {
    if n <= HistoryMaxItems then 0 else n - HistoryMaxItems
  }

  /**
    Recording a run of entries keeps the newest of the old entries followed
    by the new ones: the log always holds the last entries recorded, in order,
    as many as fit.
   */
  lemma {:induction false} AddAllKeepsNewest(h: seq<Entry>, es: seq<Entry>)
    requires Bounded(h)
    ensures |h + es| >= Overflow(|h| + |es|)
    ensures AddAll(h, es) == (h + es)[Overflow(|h| + |es|)..]
    decreases |es|
  {
    if |es| == 0 {
      assert h + es == h;
    } else {
      var e := es[0];
      var h' := Insert(h, e);
      var a := Overflow(|h| + 1);
      assert h' == (h + [e])[a..];
      assert h + [e] + es[1..] == h + es;
      assert h' + es[1..] == (h + es)[a..];
      AddAllKeepsNewest(h', es[1..]);
      DropDrop(h + es, a, Overflow(|h'| + |es| - 1));
    }
  }

  /** From an empty log, k recordings leave the last min(k, 100) of them. */
  lemma HistoryAfterRecordings(es: seq<Entry>)
    ensures |AddAll([], es)| == if |es| < HistoryMaxItems then |es| else HistoryMaxItems
    ensures AddAll([], es) == es[|es| - |AddAll([], es)|..]
  {
    AddAllKeepsNewest([], es);
    assert [] + es == es;
  }

  /** The four parallel arrays of shell.c and the number of slots in use. */
  datatype Arrays = Arrays(history: seq<string>, pids: seq<int>, startTimes: seq<int>, durations: seq<int>, len: int)

  /** Every array has its `HistoryMaxItems` slots and the length is in range. */
  predicate Allocated(a: Arrays) {
    && |a.history| == HistoryMaxItems
    && |a.pids| == HistoryMaxItems
    && |a.startTimes| == HistoryMaxItems
    && |a.durations| == HistoryMaxItems
    && 0 <= a.len <= HistoryMaxItems
  }

  /** The entries the arrays hold: slot i of every array, for i below `len`. */
  function View(a: Arrays): (h: seq<Entry>)
    requires Allocated(a)
    ensures Bounded(h)
  {
    seq(a.len, i requires 0 <= i < a.len => Entry(a.history[i], a.pids[i], a.startTimes[i], a.durations[i]))
  }

  /** `memmove(x, x + 1, HistoryMaxItems - 1)`: slot i receives slot i + 1 and
      the last slot keeps its old content. */
  function MemmoveDown<T>(x: seq<T>): (y: seq<T>)
    requires |x| == HistoryMaxItems
    ensures |y| == HistoryMaxItems
    ensures forall i :: 0 <= i < HistoryMaxItems - 1 ==> y[i] == x[i + 1]
    ensures y[HistoryMaxItems - 1] == x[HistoryMaxItems - 1]
  {
    x[1..] + [x[HistoryMaxItems - 1]]
  }

  /** The eviction step of `add_to_history`, applied to all four arrays. */
  function Evict(a: Arrays): (b: Arrays)
    requires Allocated(a) && a.len == HistoryMaxItems
    ensures Allocated(b) && b.len == HistoryMaxItems - 1
    ensures View(b) == View(a)[1..]
  {
    var b := Arrays(MemmoveDown(a.history), MemmoveDown(a.pids), MemmoveDown(a.startTimes),
                    MemmoveDown(a.durations), a.len - 1);
    assert forall i :: 0 <= i < b.len ==> View(b)[i] == View(a)[1..][i];
    b
  }

  /**
    `add_to_history` on the four arrays: evict when full, then write slot
    `len` of every array and increment `len`. The arrays stay aligned: their
    view changes exactly as `Add` changes the record log.
   */
  function AddToHistory(a: Arrays, cmd: string, pid: int, now: int, duration: int, dupOk: bool): (r: Arrays)
    requires Allocated(a)
    ensures Allocated(r)
    ensures View(r) == Add(View(a), cmd, pid, now, duration, dupOk)
  {
    if !dupOk then a
    else
      var b := if a.len == HistoryMaxItems then Evict(a) else a;
      var r := Arrays(b.history[b.len := cmd], b.pids[b.len := pid], b.startTimes[b.len := now],
                      b.durations[b.len := duration], b.len + 1);
      assert View(r) == View(b) + [Entry(cmd, pid, now, duration)] by {
        assert forall i :: 0 <= i < b.len ==> View(r)[i] == View(b)[i];
      }
      r
  }
}
