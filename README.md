# TinyHash in Dafny

TinyHash is a small C hash table that maps keys to values. All entries live in
one array of nodes. A node stores a key, a value, the key's full 32-bit hash
and `next`, the slot index of the following node in its chain (-1 ends a
chain).

- **Home slot.** The home slot of a key is `hash mod capacity`.
- **Anchor.** A node that sits in its own home slot is an anchor. It starts the
  chain of every key with that home.
- **Free cursor.** A persistent cursor starts at the capacity and only moves
  down. It hands out free slots for colliding keys.
- **Put on a collision.** A key whose home slot is taken goes into a free slot:
  - if the home slot holds an anchor, the key becomes the anchor's immediate
    successor;
  - if the home slot holds a node of another chain, that node moves to the free
    slot and the key takes its home slot.
- **Remove.** A removed non-anchor is spliced out. A removed lone anchor leaves
  an empty slot. A removed anchor that has a successor takes over the
  successor's entry.
- **Resize.** Resizing places every entry again, in ascending slot order, into
  a fresh array with a fresh cursor. Growth doubles the capacity.
- **Test hasher.** The test program hashes a key to the first decimal number
  written in it.

The project has three layers.

- **Pure model.**
  - `Slots`: the layout as a value, `Table(slots, cursor)`, with every
    operation as a function on it: placement, put, remove, resize, growth and
    the debug dump.
  - `Chains`: the representation invariant. The links form one chain per home
    slot, and every chain starts at its anchor, visits no slot twice and
    contains every occupied slot whose home it is. The lemmas here prove that
    every operation keeps this invariant.
  - `Semantics`: what the operations mean for the stored key-to-value map
    (`Contents`) and for the number of occupied slots.
- **Class.** `TinyHashTable.TinyHash` is the object the C API manipulates. It
  holds an `array` of nodes, the entry count, the free cursor, the hasher and
  the load threshold. Each method walks the chains in place and is proved to
  produce exactly the layout the pure function gives.
- **Test program.**
  - `Hasher`: the test hasher, as a loop proved against a reference
    definition.
  - `Vectors`: every layout that the test program expects after each put,
    remove and resize, stated as lemmas about the pure model.
  - `TestProgram`: the test program's `main` replayed on the class. The
    values, dumps, flags and counts it checks follow from those lemmas.

The table's implementation file is not modelled. The API (`tinyhash.h`) and
the expected layouts of the test program (`test.c`) pin down placement,
relocation, removal and replay order; where they leave a behaviour open, the
model makes a choice, listed under "Left out". Every layout in
`test.c` is proved to be what the model produces.

## Model

| member | source | states |
|---|---|---|
| Slots.Home | test.c:26-31 | the home slot of a hash is a slot index below the capacity |
| Slots.Fresh | tinyhash.h:13-14 | a created table has `size` empty slots and its cursor one past the last slot |
| Slots.FindFree | test.c:32-46 | the free cursor moves down from its position and stops at the first empty slot; None means every slot below it is occupied |
| Slots.FindPred | test.c:42-46 | the lowest slot whose node links to the target, or None when no node does |
| Slots.IndexOf | tinyhash.h:18 | the slot holding the key, or None when no slot holds it |
| Slots.Lookup | tinyhash.h:18 | get's value is that of a slot holding the key; None means no slot holds it |
| Slots.Place | test.c:26-51 | placing a new key keeps the capacity and never raises the cursor |
| Slots.Replay | test.c:52-63 | replaying entries into a fresh array of `cap` slots gives a well-formed layout of that capacity |
| Slots.Resize | test.c:21 | resize gives a well-formed layout of the requested capacity |
| Slots.Grow | test.c:52-69 | growth doubles the capacity |
| Slots.Put | tinyhash.h:17 | put always yields a well-formed layout; it has no failure result |
| Slots.Remove | tinyhash.h:20 | remove keeps the capacity and the cursor |
| Slots.Dump | test.c:22 | the dump lists exactly the occupied slots, each with its own hash and link, in ascending slot order |
| Slots.DumpFromLists | test.c:22 | the dump from a slot on lists exactly the occupied slots at or above it, in ascending order |
| Chains.PlaceInEmptyHome | test.c:27-31 | a key whose home slot is empty becomes a lone anchor there (`next` = -1), and the chains stay well formed |
| Chains.PlaceAfterAnchor | test.c:32-41 | a key that collides with an anchor goes to the free slot as the anchor's immediate successor, followed by the anchor's old successor |
| Chains.PlaceByRelocation | test.c:42-46 | a key that collides with a node of another chain takes its home slot as a lone anchor; the displaced node moves to the free slot and its predecessor links there |
| Chains.PlaceLinked | test.c:26-51 | placement keeps the layout chained, and it fails only when the free-slot search does |
| Chains.ReplayLinked | test.c:52-63 | a replay into a fresh array always gives a chained layout |
| Chains.RemoveSpliced | test.c:93-100 | removing a non-anchor splices it out of its chain and keeps the chains well formed |
| Chains.RemoveLoneAnchor | test.c:89-92 | removing a lone anchor empties its slot and keeps the chains well formed |
| Chains.RemoveAnchorWithSuccessor | test.c:101-104 | removing an anchor with a successor moves the successor's entry into the anchor slot and keeps the chains well formed |
| Chains.RemoveLinked | tinyhash.h:20 | remove keeps the layout chained |
| Chains.NoPredecessorOfAnchor | test.c:88-116 | no node links to an anchor |
| Chains.NonAnchorHasPredecessor | test.c:93-100 | in a chained layout, every non-anchor has a predecessor |
| Chains.HomeFreeMisses | tinyhash.h:18 | a key whose home slot is empty is stored nowhere |
| Chains.PredecessorOf | test.c:93-100 | the node before a later chain member is the lowest slot linking to it |
| Semantics.DumpCount | test.c:22 | the dump has one entry per occupied slot |
| Semantics.CountIsSize | tinyhash.h:22 | with unique keys, the number of occupied slots is the number of stored keys |
| Semantics.LookupContents | tinyhash.h:18 | lookup returns the value the map holds for the key, and None exactly when the key is not stored |
| Semantics.ContentsFind | tinyhash.h:19 | a key is in the map exactly when some slot holds it |
| Semantics.PlaceMeaning | test.c:26-51 | placing an absent key adds exactly that key with its value, raises the count by one and keeps keys unique and hashes matching |
| Semantics.PlaceSucceeds | test.c:52-69 | with room left and every slot at or above the cursor occupied, placement cannot fail |
| Semantics.ReplayMeaning | test.c:52-63 | a replay stores the same map and count as the slots it replays, keeps keys unique and hashes matching, and leaves every slot at or above the cursor occupied |
| Semantics.ResizeMeaning | test.c:228-245 | resize to any capacity at least the count keeps the map and the count and satisfies the invariant |
| Semantics.GrowMeaning | test.c:52-69 | growth keeps the map and the count and leaves room for one more entry |
| Semantics.OverwriteMeaning | tinyhash.h:17 | put of a stored key replaces its value in place and keeps the count |
| Semantics.PutNewMeaning | tinyhash.h:17 | put of a new key adds it and raises the count by one; the capacity doubles exactly when the threshold is due or placement fails |
| Semantics.PutMeaning | tinyhash.h:17-18 | after put(k, v) the map sends k to v and every other key to its old value; the count rises by one exactly for a new key; the invariant holds |
| Semantics.PutCapacity | test.c:52-69 | put doubles the capacity exactly for a new key when the threshold is due, or when its home slot is taken and the cursor finds no free slot |
| Semantics.PutCursor | test.c:32-46 | a put that keeps the capacity never raises the cursor |
| Semantics.RemoveMeaning | tinyhash.h:20-22 | remove succeeds exactly when the key is stored; the key then leaves the map, every other key keeps its value and the count drops by one; otherwise the table is unchanged |
| Hasher.TestHasher | test.c:320-338 | the scanning loop returns exactly the reference hash FirstNumber |
| Hasher.NoDigitsMeansNoNumber | test.c:327-331 | a key without digits hashes to 0xFFFFFFFF |
| Hasher.TextEndsAtNul | test.c:327-331 | digits after the terminating NUL are ignored |
| Hasher.FirstNumberOfSplit | test.c:327-335 | a key made of a digit-free prefix, a digit run and a rest that does not continue the run hashes to the run's value modulo 2^32 |
| Hasher.ModStep | test.c:334 | reducing modulo 2^32 after each `n * 10 + d` step gives the reduced value of the whole run |
| TinyHashTable.TinyHash.constructor | tinyhash.h:13-14 | a created table is valid, empty and has `size` slots with the cursor at `size` |
| TinyHashTable.TinyHash.FindFreeSlot | test.c:32-46 | the cursor search computes FindFree and leaves the cursor on the slot found, or at 0 |
| TinyHashTable.TinyHash.FindNode | tinyhash.h:18 | the walk from the home slot finds the key's slot exactly when it is stored, and reports its predecessor, or -1 for an anchor |
| TinyHashTable.TinyHash.FindPredecessor | test.c:42-46 | the walk along the chain from a non-anchor's home finds the node that links to it |
| TinyHashTable.TinyHash.Insert | test.c:26-51 | in-place placement computes Place, and leaves the nodes untouched when it fails |
| TinyHashTable.TinyHash.Resize | test.c:21 | the new array is the replay of the old one; the map and the count are kept |
| TinyHashTable.TinyHash.Put | tinyhash.h:17 | the new layout is Slots.Put of the old one; the map sends k to v; the count rises by one exactly for a new key |
| TinyHashTable.TinyHash.InsertNew | tinyhash.h:17 | a new key is placed after growth when due, and again after growth when no free slot is found |
| TinyHashTable.TinyHash.Get | tinyhash.h:18 | get returns the stored value, or None (NULL) when the key is not stored |
| TinyHashTable.TinyHash.Exists | tinyhash.h:19 | exists is true exactly when the key is stored |
| TinyHashTable.TinyHash.Remove | tinyhash.h:20 | the new layout is Slots.Remove of the old one; the result is 0 exactly when the key was stored; the key leaves the map and the count drops by one |
| TinyHashTable.TinyHash.Count | tinyhash.h:22 | count is the number of stored keys |
| TinyHashTable.TinyHash.Dump | test.c:22 | the dump loop computes Slots.Dump, one entry per stored key |
| Vectors.KeyHash | test.c:320-338 | a key made of a digit-free prefix and a digit run hashes to the run's value |
| Vectors.Created | test.c:292 | both created tables are four empty slots |
| Vectors.TestCases1 | test.c:26-51 | the four puts of test_cases_1 give exactly the expected dumps |
| Vectors.TestCases2 | test.c:52-85 | the three puts of test_cases_2 give exactly the expected dumps, the first one through growth to eight slots |
| Vectors.GetsAfterInserts | test.c:293-298 | every key of test_cases_1 and test_cases_2 reads back its value; K-100 and K-41 are absent |
| Vectors.TestCases3 | test.c:87-121 | the seven removes of test_cases_3 give exactly the expected dumps |
| Vectors.TestCases4 | test.c:123-143 | the three puts of test_cases_4 with threshold 3/4 give exactly the expected dumps |
| Vectors.TestCases5 | test.c:145-165 | the two puts of test_cases_5 give exactly the expected dumps, the first one through growth to eight slots |
| Vectors.TestCases6 | test.c:167-177 | the remove of test_cases_6 gives exactly the expected dump |
| Vectors.Resize6 | test.c:306 | resizing the second table to six slots gives the expected layout |
| Vectors.DumpD1 | test.c:179-180 | the layout after the resize dumps as resize_6_dump |
| Vectors.Resize6Count | test.c:228-245 | the resize keeps the count, 4 |
| Vectors.FinalRemoves | test.c:307-309 | removing K-41 and X-21 finds nothing and changes nothing; removing K-21 succeeds |
| Vectors.FinalCount | test.c:310 | three entries remain |
| TestProgram.FirstTable | test.c:292-299 | on the class: the gets return every inserted value, K-100 and K-41 give None, and the table is empty after test_cases_3 |
| TestProgram.SecondTable | test.c:302-310 | on the class: the resize dumps as resize_6_dump, the removes of K-41 and X-21 return nonzero, that of K-21 returns 0, and the count is 3 |

## Left out

- tiny_hash_destroy and tiny_hash_create_simple (tinyhash.h:12, 15): memory release has no counterpart here, and the default hasher of create_simple is not part of the modelled API.
- The tester callback: keys are strings compared with string equality, which agrees with the NULL tester (strcmp) of the test program only for keys that contain no NUL; keys are assumed to contain none, although the hasher stops at the first NUL (`Hasher.TextEndsAtNul`). Values are an abstract type.
- The `float max_full` threshold is an integer ratio `maxFullNum / maxFullDen`, and a zero numerator disables it. Growth is due when `(count + 1) * den > num * capacity`; the predicate `Slots.GrowDue` states this test and is the specification of the growth step of `TinyHashTable.TinyHash.InsertNew`. Only thresholds 0 and 0.75 (3/4) occur in the tests.
- Iteration (tiny_hash_first, tiny_hash_next) and tiny_hash_clear: they are used only by the printing test at test.c:261-288, which checks nothing.
- The text format and buffer truncation of tiny_hash_dump: the dump is a sequence of (slot, hash, next) triples.
- The return value of tiny_hash_resize. TinyHashTable.TinyHash.Resize requires a capacity of at least the count, and the constructor requires `size > 0` and a positive threshold denominator. Neither case is exercised by the tests.
- 32-bit overflow of the capacity when growth doubles it: capacities are unbounded naturals.
- The hasher is a total Dafny function `string -> u32`. A C hasher is free to read past a non-terminated key; a Dafny function cannot.
- The test vectors require a full table with threshold 0 to double on a new key (test_cases_2, test.c:52-69). The model takes the failed cursor search as the trigger (`Semantics.PutCapacity`), so a table that still has free slots above the cursor after removals also doubles.
- Several behaviours are not pinned down by any vector; the model makes a choice for each:
  - put of a stored key overwrites the value in place;
  - remove leaves the cursor where it is;
  - put doubles the table whenever the cursor search fails, even when removals have left free slots above the cursor;
  - get and remove report a missing key as None and -1.
- Concurrency, allocation failure and `void *` ownership.
