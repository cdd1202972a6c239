/** Bounded per-container context: a ring buffer of entries and the store that owns one
    buffer per container. Model of internal/context/buffer.go and internal/context/store.go. */
module ContextBuffer {
  import opened Common

  datatype LogEntry = LogEntry(containerId: Str, containerName: Str, timestamp: int, stream: Str,
                               level: int, message: Str, fields: map<Str, Str>, raw: Str)

  function ContainerKey(e: LogEntry): Str { if e.containerName != [] then e.containerName else e.containerId }

  /** The `length` slots from `start` on, wrapping around. */
  function Ring(slots: seq<LogEntry>, start: nat, length: nat): (s: seq<LogEntry>)
    requires start < |slots| && length <= |slots|
    ensures |s| == length
  {
    if start + length <= |slots| then slots[start..start + length]
    else slots[start..] + slots[..start + length - |slots|]
  }

  lemma RingExtend(slots: seq<LogEntry>, start: nat, length: nat, x: LogEntry)
    requires start < |slots| && length < |slots|
    ensures Ring(slots[Wrap(start + length, |slots|) := x], start, length + 1) == Ring(slots, start, length) + [x]
  {
  }

  lemma RingAt(slots: seq<LogEntry>, start: nat, length: nat, i: nat)
    requires start < |slots| && i < length <= |slots|
    ensures Ring(slots, start, length)[i] == slots[Wrap(start + i, |slots|)]
  {
  }

  lemma RingOverwrite(slots: seq<LogEntry>, start: nat, x: LogEntry)
    requires start < |slots|
    ensures Ring(slots[start := x], Wrap(start + 1, |slots|), |slots|) == Ring(slots, start, |slots|)[1..] + [x]
  {
  }

  /** A fixed-capacity ring. `history` is everything ever appended. */
  class Buffer {
    ghost var history: seq<LogEntry>
    const capacity: nat
    const entries: array<LogEntry>
    var start: nat
    var length: nat

    /** The stored entries, oldest first. */
    ghost function Contents(): (s: seq<LogEntry>)
      reads this, entries
      requires capacity == entries.Length && start < capacity && length <= capacity
    {
      Ring(entries[..], start, length)
    }

    ghost predicate Valid() reads this, entries {
      && 0 < capacity == entries.Length && start < capacity && length <= capacity
      && Contents() == Suffix(history, capacity)
    }

    constructor (capacity: nat)
      requires 0 < capacity
      ensures Valid() && fresh(entries) && history == [] && this.capacity == capacity
    {
      this.capacity := capacity;
      var blank := LogEntry([], [], ZERO_TIME, [], 0, [], map[], []);
      entries := new LogEntry[capacity](_ => blank);
      start, length, history := 0, 0, [];
    }

    /** Appending refines appending to the unbounded history. */
    method Append(entry: LogEntry)
      requires Valid()
      modifies this, entries
      ensures Valid() && history == old(history) + [entry]
    {
      ghost var before := Contents();
      if length == capacity {
        RingOverwrite(entries[..], start, entry);
        var index := start;
        start := Wrap(start + 1, capacity);
        entries[index] := entry;
        assert entries[..] == old(entries[..])[index := entry];
      } else {
        RingExtend(entries[..], start, length, entry);
        var index := Wrap(start + length, capacity);
        length := length + 1;
        entries[index] := entry;
        assert entries[..] == old(entries[..])[index := entry];
      }
      history := history + [entry];
      SuffixOfAppend(old(history), entry, capacity);
      assert Contents() == Suffix(before + [entry], capacity);
    }

    method Copy(first: nat, n: nat) returns (result: seq<LogEntry>)
      requires Valid() && n <= length && first == Wrap(start + length - n, capacity)
      ensures result == Contents()[length - n..]
    {
      result := [];
      for i := 0 to n
        invariant result == Contents()[length - n..length - n + i]
      {
        var slot := Wrap(first + i, capacity);
        RingAt(entries[..], start, length, length - n + i);
        result := result + [entries[slot]];
      }
    }

    /** The last `limit` entries ever appended, as far as the capacity reaches. */
    method Last(limit: int) returns (result: seq<LogEntry>)
      requires Valid()
      ensures result == Suffix(history, if limit < capacity then limit else capacity)
    {
      if limit <= 0 {
        return [];
      }
      var n := if limit > length then length else limit;
      var first := Wrap(start + length - n, capacity);
      result := Copy(first, n);
      assert result == Suffix(Contents(), n);
      SuffixOfSuffix(history, capacity, limit);
    }
  }

  /** Go's `x % capacity` for a position at most one turn ahead. */
  function Wrap(x: nat, capacity: nat): (r: nat)
    requires 0 < capacity && x < 2 * capacity
    ensures r == if x < capacity then x else x - capacity
  {
    WrapIsSlot(x, capacity);
    x % capacity
  }

  lemma WrapIsSlot(x: nat, capacity: nat)
    requires 0 < capacity && x < 2 * capacity
    ensures x % capacity == if x < capacity then x else x - capacity
  {
    var q := x / capacity;
    assert x == capacity * q + x % capacity;
    assert q >= 2 ==> capacity * q >= capacity * 2;
  }

  /** One ring buffer per container. `repr` holds the buffers and their arrays. */
  class ContextStore {
    const capacity: nat
    var buffers: map<Str, Buffer>
    ghost var repr: set<object>

    /** No two containers share a buffer. */
    ghost predicate Valid() reads this, repr {
      && 0 < capacity && this !in repr
      && (forall k :: k in buffers ==>
            buffers[k] in repr && buffers[k].entries in repr && buffers[k].Valid() && buffers[k].capacity == capacity)
      && (forall k, m :: k in buffers && m in buffers && k != m ==>
            buffers[k] != buffers[m] && buffers[k].entries != buffers[m].entries)
    }

    /** Everything appended for a container since it was last removed. */
    ghost function History(container: Str): (s: seq<LogEntry>)
      requires Valid()
      reads this, repr
    {
      if container in buffers then buffers[container].history else []
    }

    constructor (capacity: nat)
      requires 0 < capacity
      ensures Valid() && fresh(repr) && buffers == map[] && this.capacity == capacity
    {
      this.capacity, buffers, repr := capacity, map[], {};
    }

    /** Creates the container's buffer on first use. */
    method Create(container: Str)
      requires Valid() && container !in buffers
      modifies this
      ensures Valid() && fresh(repr - old(repr))
      ensures container in buffers && buffers == old(buffers)[container := buffers[container]]
      ensures buffers[container].history == []
    {
      var buffer := new Buffer(capacity);
      buffers := buffers[container := buffer];
      repr := repr + {buffer, buffer.entries};
    }

    method AppendExisting(container: Str, entry: LogEntry)
      requires Valid() && container in buffers
      modifies repr
      ensures Valid() && buffers == old(buffers) && repr == old(repr)
      ensures forall k :: History(k) == if k == container then old(History(k)) + [entry] else old(History(k))
    {
      buffers[container].Append(entry);
      assert forall k :: k in buffers && k != container ==> buffers[k].Valid() && buffers[k].history == old(buffers[k].history);
    }

    method Append(entry: LogEntry)
      requires Valid()
      modifies this, repr
      ensures Valid() && fresh(repr - old(repr))
      ensures entry.containerName != [] ==>
                forall k :: History(k) == if k == entry.containerName then old(History(k)) + [entry] else old(History(k))
      ensures entry.containerName == [] ==>
                forall k :: History(k) == if k == entry.containerId then old(History(k)) + [entry] else old(History(k))
    {
      if ContainerKey(entry) !in buffers {
        Create(ContainerKey(entry));
      }
      AppendExisting(ContainerKey(entry), entry);
    }

    method Last(container: Str, limit: int) returns (result: seq<LogEntry>)
      requires Valid()
      ensures result == Suffix(History(container), if limit < capacity then limit else capacity)
    {
      if container in buffers {
        result := buffers[container].Last(limit);
      } else {
        result := [];
      }
    }

    method Remove(container: Str)
      requires Valid()
      modifies this`buffers
      ensures Valid()
      ensures forall k :: History(k) == if k == container then [] else old(History(k))
    {
      buffers := buffers - {container};
    }
  }

  /** NewStore; null stands for its error. */
  method NewContextStore(capacity: int) returns (store: ContextStore?)
    ensures store == null <==> capacity <= 0
    ensures store != null ==> fresh(store) && store.Valid() && store.buffers == map[] && store.capacity == capacity
  {
    if capacity <= 0 {
      return null;
    }
    store := new ContextStore(capacity);
  }

  lemma LastOfAppend(h: seq<LogEntry>, entry: LogEntry)
    ensures Suffix(h + [entry], 1) == [entry]
  {
  }

  /** What is appended is read back under its container's name, or its ID if it has no name,
      and under no other. */
  method AppendThenRead(store: ContextStore, entry: LogEntry, other: Str, limit: int)
    returns (latest: seq<LogEntry>, before: seq<LogEntry>, after: seq<LogEntry>)
    requires store.Valid()
    modifies store, store.repr
    ensures latest == [entry]
    ensures other != (if entry.containerName != [] then entry.containerName else entry.containerId) ==> before == after
  {
    var key := if entry.containerName != [] then entry.containerName else entry.containerId;
    ghost var h := store.History(key);
    before := store.Last(other, limit);
    store.Append(entry);
    assert store.History(key) == h + [entry];
    LastOfAppend(h, entry);
    after := store.Last(other, limit);
    latest := store.Last(key, 1);
  }
}
