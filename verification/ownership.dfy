/** Who owns an environment's entries in source/monkey/environment.c.

    A scope's GLib table owns its entries: destroying the table frees every key string and
    destroys every value object. Here each entry is one allocation, at an address of a heap; the
    table maps a name to that address, and destroying the table frees the addresses it holds.

    CopyEnvironment inserts the original's key and value pointers into the new table, so the copy
    owns the very allocations the original still reads. Destroying the copy (DestroyObject on a
    function value destroys the environment it closes over) leaves the original dangling, and
    destroying the original (a call's scope, once the call returns) leaves the copy dangling. The
    corrected copy duplicates every entry, as the header's "including its data" says, and is the
    reading the rest of the model uses: Environments.CopyEnvironment treats a copy as a value. */
module Ownership {
  import opened Wrappers
  import opened Values
  import Environments

  /** An allocation holding one entry: the key string and value object of `name` made at some
      point of the run. Allocations made later have a larger `generation`. */
  datatype Address = Address(generation: nat, name: string)

  /** A scope's table: each name is bound to the allocation holding its entry. */
  type Table = map<string, Address>

  /** The live allocations and what they hold: the entry a key/value pair denotes. */
  type Heap = map<Address, Option<Object>>

  /** What g_hash_table_lookup of a name meets: no entry, a live entry, or freed memory. */
  datatype Lookup = Missing | Found(entry: Option<Object>) | Dangling

  /** Every entry of the table is allocated. */
  predicate Live(table: Table, heap: Heap)
  {
    forall name | name in table :: table[name] in heap
  }

  /** Every allocation was made before generation `next`, so allocations of `next` are new. */
  predicate Below(heap: Heap, next: nat)
  {
    forall address | address in heap :: address.generation < next
  }

  /** Looking a name up: reading an entry whose allocation was freed is undefined behaviour. */
  function Read(table: Table, heap: Heap, name: string): (r: Lookup)
    ensures r.Missing? <==> name !in table
    ensures r.Dangling? <==> name in table && table[name] !in heap
    ensures r.Found? ==> r.entry == heap[table[name]]
  {
    if name !in table then Missing
    else if table[name] in heap then Found(heap[table[name]])
    else Dangling
  }

  /** The entries a live table denotes, as the environment model sees them. */
  function Entries(table: Table, heap: Heap): (r: map<string, Option<Object>>)
    requires Live(table, heap)
    ensures r.Keys == table.Keys
    ensures forall name | name in r :: Read(table, heap, name) == Found(r[name])
  {
    map name | name in table :: heap[table[name]]
  }

  /** DestroyEnvironment: g_hash_table_destroy frees every allocation the table holds. */
  function Destroy(table: Table, heap: Heap): (r: Heap)
    ensures forall address :: address in r <==> address in heap && address !in table.Values
    ensures forall address | address in r :: r[address] == heap[address]
  {
    map address | address in heap && address !in table.Values :: heap[address]
  }

  /** CopyEnvironment as written: `tblCopyKv` inserts the original's key and value pointers, so the
      copy holds the very allocations of the original and reads every name alike. */
  function SharedCopy(table: Table, heap: Heap): (r: Table)
    ensures r.Keys == table.Keys
    ensures forall name :: Read(r, heap, name) == Read(table, heap, name)
  {
    map name | name in table :: table[name]
  }

  /** As written, destroying the copy frees every entry of the original: each bound name of the
      original then reads freed memory. */
  lemma SharedCopyDangles(table: Table, heap: Heap, name: string)
    requires name in table
    ensures Read(table, Destroy(SharedCopy(table, heap), heap), name) == Dangling
  {
    assert table[name] in SharedCopy(table, heap).Values;
  }

  /** `let a = 5;` then a call of a function literal, then `a`: the literal closes over a shared
      copy of the scope, the call destroys it, and the final lookup of `a` reads freed memory. */
  lemma LetCallLookup()
    ensures var table: Table := map["a" := Address(0, "a")];
      var heap: Heap := map[Address(0, "a") := Some(Integer(5))];
      && Read(table, heap, "a") == Found(Some(Integer(5)))
      && Read(table, Destroy(SharedCopy(table, heap), heap), "a") == Dangling
  {
    SharedCopyDangles(map["a" := Address(0, "a")], map[Address(0, "a") := Some(Integer(5))], "a");
  }

  /** As written, the other way round: destroying the original frees every entry of the shared
      copy, so each bound name of a copy that outlives its original reads freed memory. */
  lemma SharedCopyOutlived(table: Table, heap: Heap, name: string)
    requires name in table
    ensures Read(SharedCopy(table, heap), Destroy(table, heap), name) == Dangling
  {
    assert table[name] in table.Values;
  }

  /** `fn(x){ fn(y){ x + y } }(1)(2)`: the inner literal closes over a shared copy of the call
      scope, the call destroys that scope, and the closure's lookup of `x` reads freed memory. */
  lemma ClosureCallLookup()
    ensures var scope: Table := map["x" := Address(0, "x")];
      var heap: Heap := map[Address(0, "x") := Some(Integer(1))];
      var closure := SharedCopy(scope, heap);
      && Read(closure, heap, "x") == Found(Some(Integer(1)))
      && Read(closure, Destroy(scope, heap), "x") == Dangling
  {
    SharedCopyOutlived(map["x" := Address(0, "x")], map[Address(0, "x") := Some(Integer(1))], "x");
  }

  /** The new table of the corrected copy: each entry in an allocation of generation `next`. */
  function Relocated(table: Table, next: nat): (r: Table)
    ensures r.Keys == table.Keys
    ensures forall name | name in r :: r[name] == Address(next, name)
  {
    map name | name in table :: Address(next, name)
  }

  /** The new allocations of the corrected copy, holding the duplicated entries. */
  function Duplicates(table: Table, heap: Heap, next: nat): (r: Heap)
    requires Live(table, heap)
    ensures forall name | name in table :: Address(next, name) in r && r[Address(next, name)] == heap[table[name]]
    ensures forall address | address in r :: address.generation == next
  {
    map address | address in (set name | name in table :: Address(next, name)) :: heap[table[address.name]]
  }

  /** The corrected CopyEnvironment: every entry is duplicated into a new allocation. The allocator
      is a parameter: the new allocations are of generation `next`, after every live one. */
  function DeepCopy(table: Table, heap: Heap, next: nat): (r: (Table, Heap))
    requires Live(table, heap) && Below(heap, next)
    ensures r.0.Keys == table.Keys
    ensures forall name | name in r.0 :: r.0[name].generation == next
    ensures forall address | address in heap :: address in r.1 && r.1[address] == heap[address]
    ensures Live(r.0, r.1)
    ensures forall name :: Read(r.0, r.1, name) == Read(table, heap, name)
  {
    hide Read;
    var copy := Relocated(table, next);
    var added := Duplicates(table, heap, next);
    (copy, heap + added)
  }

  /** With the corrected copy, destroying the copy leaves every name of the original reading what
      it read before, and the copy read what the original reads. */
  lemma DeepCopyKeepsOriginal(table: Table, heap: Heap, next: nat, name: string)
    requires Live(table, heap) && Below(heap, next)
    ensures var (copy, grown) := DeepCopy(table, heap, next);
      && Read(copy, grown, name) == Read(table, heap, name)
      && Read(table, Destroy(copy, grown), name) == Read(table, heap, name)
  {
    var (copy, grown) := DeepCopy(table, heap, next);
    if name in table {
      assert table[name].generation < next;
      assert table[name] !in copy.Values;
    }
  }

  /** With the corrected copy, destroying the original leaves every name of the copy reading what
      the original read: a closure may outlive the scope it was copied from. */
  lemma DeepCopyOutlivesOriginal(table: Table, heap: Heap, next: nat, name: string)
    requires Live(table, heap) && Below(heap, next)
    ensures var (copy, grown) := DeepCopy(table, heap, next);
      Read(copy, Destroy(table, grown), name) == Read(table, heap, name)
  {
    var (copy, grown) := DeepCopy(table, heap, next);
    if name in copy {
      assert copy[name].generation == next;
      assert copy[name] !in table.Values;
    }
  }

  /** Two live tables that read every name alike denote the same entries. */
  lemma SameEntries(a: Table, heapA: Heap, b: Table, heapB: Heap)
    requires Live(a, heapA) && Live(b, heapB)
    requires forall name :: Read(a, heapA, name) == Read(b, heapB, name)
    ensures Entries(a, heapA) == Entries(b, heapB)
  {
    hide Read;
    forall name | name in a ensures Read(a, heapA, name) == Read(b, heapB, name) {
    }
  }

  /** The corrected copy is the copy of the environment model: the entries of the copy, and those
      of the original once the copy is destroyed, are Environments.CopyEnvironment's store. */
  lemma DeepCopyIsValueCopy(table: Table, heap: Heap, next: nat, outer: Option<Env>)
    requires Live(table, heap) && Below(heap, next)
    ensures var (copy, grown) := DeepCopy(table, heap, next);
      && Live(table, Destroy(copy, grown))
      && Environments.CopyEnvironment(Env(Entries(table, heap), outer))
        == Env(Entries(copy, grown), outer)
        == Env(Entries(table, Destroy(copy, grown)), outer)
  {
    hide DeepCopy, Read, Entries, Destroy;
    var (copy, grown) := DeepCopy(table, heap, next);
    forall name ensures Read(table, Destroy(copy, grown), name) == Read(table, heap, name) {
      DeepCopyKeepsOriginal(table, heap, next, name);
    }
    assert Live(table, Destroy(copy, grown)) by {
      forall name | name in table ensures table[name] in Destroy(copy, grown) {
        assert Read(table, Destroy(copy, grown), name) == Read(table, heap, name);
      }
    }
    SameEntries(copy, grown, table, heap);
    SameEntries(table, Destroy(copy, grown), table, heap);
  }
}
