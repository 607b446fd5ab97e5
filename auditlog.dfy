/**
 * The operator audit log of the configuration service (src/ArkStudio.c):
 * a 256-slot ring buffer of timestamped entries with head, tail and count
 * indices, appended by `_conf_log_nolock` and walked oldest to newest by
 * `build_logs_json`.  Timestamps are the formatted wall-clock strings the
 * C code produces, passed in as `stamp`.
 */
module AuditLog {
  import opened Wrappers
  import opened CStrings

  /** `CONF_LOG_RING_SZ`. */
  const Capacity: int := 256
  /** Characters kept of an action (a 32-byte buffer with its terminator). */
  const ActionMax: nat := 31
  /** Characters kept of a detail (a 128-byte buffer with its terminator). */
  const DetailMax: nat := 127

  /** A `conf_log_t`. */
  datatype Entry = Entry(ts: string, action: string, detail: string)

  /** What `strncpy` into an `n + 1`-byte buffer keeps of an optional C
      string: `"-"` for a null pointer, otherwise at most the first `n`
      characters. */
  function Stored(s: Option<string>, n: nat): (r: string)
    requires n >= 1
    ensures s.None? ==> r == "-"
    ensures s.Some? ==> |r| == (if |s.value| <= n then |s.value| else n) && r == s.value[..|r|]
  {
    match s
    case None => "-"
    case Some(t) => Truncate(t, n)
  }

  /** The entry `_conf_log_nolock` writes. */
  function MakeEntry(stamp: string, action: Option<string>, detail: Option<string>): Entry
  {
    Entry(stamp, Stored(action, ActionMax), Stored(detail, DetailMax))
  }

  /** The log as read oldest to newest after one more append: at capacity
      the oldest entry is dropped. */
  function Keep(view: seq<Entry>, e: Entry): seq<Entry>
  {
    if |view| >= Capacity then view[1..] + [e] else view + [e]
  }

  /** The log after appending `es` in order to a log reading `view`. */
  function Replay(view: seq<Entry>, es: seq<Entry>): seq<Entry>
    decreases |es|
  {
    if es == [] then view else Keep(Replay(view, es[..|es| - 1]), es[|es| - 1])
  }

  /** The last `Capacity` elements of `xs` (all of them when there are fewer). */
  function Latest(xs: seq<Entry>): (r: seq<Entry>)
    ensures |r| <= Capacity
  {
    if |xs| <= Capacity then xs else xs[|xs| - Capacity..]
  }

  /** Appending many entries to an empty log leaves exactly the last 256 of
      them, oldest first: after 256 + k appends the first k are gone. */
  lemma {:induction false} ReplayKeepsLatest(es: seq<Entry>)
    ensures Replay([], es) == Latest(es)
    decreases |es|
  {
    if es != [] {
      var init := es[..|es| - 1];
      var x := es[|es| - 1];
      ReplayKeepsLatest(init);
      assert es == init + [x];
      if |init| >= Capacity {
        assert Latest(init)[1..] + [x] == Latest(es);
      }
    }
  }

  /** Reduces an index below twice the capacity into the buffer. */
  function Wrap(i: int): int
  {
    if i < Capacity then i else i - Capacity
  }

  /** For indices below twice the capacity, `% 256` is `Wrap`. */
  lemma ModIsWrap(i: int)
    requires 0 <= i < 2 * Capacity
    ensures i % Capacity == Wrap(i)
  {
  }

  /** The ring buffer: the statics `mlogs`, `mlog_head`, `mlog_tail` and `mlog_count`. */
  class Ring {
    var slots: array<Entry>
    var head: int
    var tail: int
    var count: int
    /** The entries in order oldest to newest. */
    ghost var Contents: seq<Entry>

    ghost predicate Valid()
      reads this, slots
    {
      && slots.Length == Capacity
      && 0 <= head < Capacity && 0 <= tail < Capacity && 0 <= count <= Capacity
      && tail == Wrap(head + count)
      && |Contents| == count
      && forall k :: 0 <= k < count ==> Contents[k] == slots[Wrap(head + k)]
    }

    /** The zero-initialised statics: an empty log. */
    constructor ()
      ensures Valid() && fresh(slots)
      ensures Contents == [] && head == 0 && tail == 0 && count == 0
    {
      slots := new Entry[Capacity](_ => Entry("", "", ""));
      head, tail, count := 0, 0, 0;
      Contents := [];
    }

    /** `_conf_log_nolock` (and `conf_add_log`, which only adds the lock):
        when full, drop the oldest by advancing `head`; write the new entry
        at `tail` and advance it.  No other slot changes. */
    method Append(stamp: string, action: Option<string>, detail: Option<string>)
      requires Valid()
      modifies this, slots
      ensures Valid() && slots == old(slots)
      ensures Contents == Keep(old(Contents), MakeEntry(stamp, action, detail))
      ensures head == (if old(count) == Capacity then (old(head) + 1) % Capacity else old(head))
      ensures tail == (old(tail) + 1) % Capacity && tail == (head + count) % Capacity
      ensures count == (if old(count) == Capacity then Capacity else old(count) + 1)
      ensures slots[old(tail)] == MakeEntry(stamp, action, detail)
      ensures forall i :: 0 <= i < Capacity && i != old(tail) ==> slots[i] == old(slots[i])
    {
      if count == Capacity {
        DropOldest();
      }
      Push(MakeEntry(stamp, action, detail));
    }

    /** The full-buffer branch of `_conf_log_nolock`: the oldest entry goes. */
    method DropOldest()
      requires Valid() && count == Capacity
      modifies this
      ensures Valid() && slots == old(slots) && tail == old(tail)
      ensures Contents == old(Contents)[1..]
      ensures head == (old(head) + 1) % Capacity && count == Capacity - 1
    {
      ModIsWrap(head + 1);
      head := (head + 1) % Capacity;
      count := count - 1;
      Contents := Contents[1..];
    }

    /** The write of `_conf_log_nolock` into a buffer with room: the entry
        goes to `tail`, which advances. */
    method Push(e: Entry)
      requires Valid() && count < Capacity
      modifies this, slots
      ensures Valid() && slots == old(slots) && head == old(head)
      ensures Contents == old(Contents) + [e] && count == old(count) + 1
      ensures tail == (old(tail) + 1) % Capacity
      ensures slots[old(tail)] == e
      ensures forall i :: 0 <= i < Capacity && i != old(tail) ==> slots[i] == old(slots[i])
    {
      slots[tail] := e;
      ModIsWrap(tail + 1);
      tail := (tail + 1) % Capacity;
      count := count + 1;
      Contents := Contents + [e];
      ModIsWrap(head + count);
    }

    /** The walk of `build_logs_json`: `count` slots from `head`, wrapping at
        the capacity, yields the entries oldest to newest. */
    method Snapshot() returns (view: seq<Entry>)
      requires Valid()
      ensures view == Contents
    {
      view := [];
      var i, idx := 0, head;
      while i < count
        invariant 0 <= i <= count
        invariant idx == Wrap(head + i)
        invariant view == Contents[..i]
      {
        view := view + [slots[idx]];
        ModIsWrap(idx + 1);
        idx := (idx + 1) % Capacity;
        i := i + 1;
      }
    }
  }
}
