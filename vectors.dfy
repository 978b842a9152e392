/**
 * The test program's vectors stated against the model: the hash of every key
 * used, the dump after every put and remove, the gets, the resize to six slots
 * and the final removes and count, for both tables the program builds.
 */
module Vectors {
  import opened Uint32
  import opened Slots
  import opened Hasher
  import opened Semantics

  // ---------------------------------------------------------------------
  // Hashes of the keys.
  // ---------------------------------------------------------------------

  /** A key made of a digit-free prefix and a run of digits hashes to the
      number the digits denote. */
  lemma KeyHash(s: string, prefix: string, digits: string, n: nat)
    requires s == prefix + digits
    requires forall q | 0 <= q < |prefix| :: prefix[q] != '\0' && !IsDigit(prefix[q])
    requires digits != [] && AllDigits(digits) && DecimalValue(digits) == n < MODULUS
    ensures FirstNumber(s) == n
  {
    FirstNumberOfSplit(prefix, digits, "");
    assert prefix + digits + "" == s;
  }

  lemma HashK1()
    ensures FirstNumber("K-1") == 1
  {
    KeyHash("K-1", "K-", "1", 1);
  }

  lemma HashK5()
    ensures FirstNumber("K-5") == 5
  {
    KeyHash("K-5", "K-", "5", 5);
  }

  lemma HashK17()
    ensures FirstNumber("K-17") == 17
  {
    assert "17"[..1] == "1";
    KeyHash("K-17", "K-", "17", 17);
  }

  lemma HashK2()
    ensures FirstNumber("K-2") == 2
  {
    KeyHash("K-2", "K-", "2", 2);
  }

  lemma HashK9()
    ensures FirstNumber("K-9") == 9
  {
    KeyHash("K-9", "K-", "9", 9);
  }

  lemma HashK25()
    ensures FirstNumber("K-25") == 25
  {
    assert "25"[..1] == "2";
    KeyHash("K-25", "K-", "25", 25);
  }

  lemma HashK33()
    ensures FirstNumber("K-33") == 33
  {
    assert "33"[..1] == "3";
    KeyHash("K-33", "K-", "33", 33);
  }

  lemma HashK21()
    ensures FirstNumber("K-21") == 21
  {
    assert "21"[..1] == "2";
    KeyHash("K-21", "K-", "21", 21);
  }

  lemma HashK41()
    ensures FirstNumber("K-41") == 41
  {
    assert "41"[..1] == "4";
    KeyHash("K-41", "K-", "41", 41);
  }

  lemma HashX21()
    ensures FirstNumber("X-21") == 21
  {
    assert "21"[..1] == "2";
    KeyHash("X-21", "X-", "21", 21);
  }

  lemma HashK100()
    ensures FirstNumber("K-100") == 100
  {
    assert "100"[..2] == "10" && "10"[..1] == "1";
    KeyHash("K-100", "K-", "100", 100);
  }

  // ---------------------------------------------------------------------
  // The layouts the two tables go through.
  // ---------------------------------------------------------------------

  /** The first table as created: four empty slots, no load threshold. */
  const A0: Table<string> := Table([Empty, Empty, Empty, Empty], 4)
  const A1: Table<string> := Table([Empty, Occupied("K-1", "V-1", 1, -1), Empty, Empty], 4)
  const A2: Table<string> := Table([Empty, Occupied("K-1", "V-1", 1, 3), Empty, Occupied("K-5", "V-5", 5, -1)], 3)
  const A3: Table<string> := Table([Empty, Occupied("K-1", "V-1", 1, 2), Occupied("K-17", "V-17", 17, 3), Occupied("K-5", "V-5", 5, -1)], 2)
  const A4: Table<string> := Table([Occupied("K-17", "V-17", 17, 3), Occupied("K-1", "V-1", 1, 0), Occupied("K-2", "V-2", 2, -1), Occupied("K-5", "V-5", 5, -1)], 0)
  const A5: Table<string> := Table([Empty, Occupied("K-17", "V-17", 17, 6), Occupied("K-2", "V-2", 2, -1), Empty, Empty, Occupied("K-5", "V-5", 5, -1), Occupied("K-9", "V-9", 9, 7), Occupied("K-1", "V-1", 1, -1)], 6)
  const A6: Table<string> := Table([Empty, Occupied("K-17", "V-17", 17, 4), Occupied("K-2", "V-2", 2, -1), Empty, Occupied("K-25", "V-25", 25, 6), Occupied("K-5", "V-5", 5, -1), Occupied("K-9", "V-9", 9, 7), Occupied("K-1", "V-1", 1, -1)], 4)
  const A7: Table<string> := Table([Empty, Occupied("K-17", "V-17", 17, 3), Occupied("K-2", "V-2", 2, -1), Occupied("K-33", "V-33", 33, 4), Occupied("K-25", "V-25", 25, 6), Occupied("K-5", "V-5", 5, -1), Occupied("K-9", "V-9", 9, 7), Occupied("K-1", "V-1", 1, -1)], 3)
  const R1: Table<string> := Table([Empty, Occupied("K-17", "V-17", 17, 3), Empty, Occupied("K-33", "V-33", 33, 4), Occupied("K-25", "V-25", 25, 6), Occupied("K-5", "V-5", 5, -1), Occupied("K-9", "V-9", 9, 7), Occupied("K-1", "V-1", 1, -1)], 3)
  const R2: Table<string> := Table([Empty, Occupied("K-17", "V-17", 17, 3), Empty, Occupied("K-33", "V-33", 33, 4), Occupied("K-25", "V-25", 25, 6), Occupied("K-5", "V-5", 5, -1), Occupied("K-9", "V-9", 9, -1), Empty], 3)
  const R3: Table<string> := Table([Empty, Occupied("K-17", "V-17", 17, 3), Empty, Occupied("K-33", "V-33", 33, 6), Empty, Occupied("K-5", "V-5", 5, -1), Occupied("K-9", "V-9", 9, -1), Empty], 3)
  const R4: Table<string> := Table([Empty, Occupied("K-33", "V-33", 33, 6), Empty, Empty, Empty, Occupied("K-5", "V-5", 5, -1), Occupied("K-9", "V-9", 9, -1), Empty], 3)
  const R5: Table<string> := Table([Empty, Occupied("K-33", "V-33", 33, -1), Empty, Empty, Empty, Occupied("K-5", "V-5", 5, -1), Empty, Empty], 3)
  const R6: Table<string> := Table([Empty, Occupied("K-33", "V-33", 33, -1), Empty, Empty, Empty, Empty, Empty, Empty], 3)
  const R7: Table<string> := Table([Empty, Empty, Empty, Empty, Empty, Empty, Empty, Empty], 3)
  /** The second table as created: four empty slots, load threshold 3/4. */
  const B0: Table<string> := Table([Empty, Empty, Empty, Empty], 4)
  const B1: Table<string> := Table([Empty, Occupied("K-1", "V-1", 1, -1), Empty, Empty], 4)
  const B2: Table<string> := Table([Empty, Occupied("K-1", "V-1", 1, 3), Empty, Occupied("K-5", "V-5", 5, -1)], 3)
  const B3: Table<string> := Table([Empty, Occupied("K-1", "V-1", 1, 2), Occupied("K-17", "V-17", 17, 3), Occupied("K-5", "V-5", 5, -1)], 2)
  const B4: Table<string> := Table([Empty, Occupied("K-1", "V-1", 1, 6), Empty, Empty, Empty, Occupied("K-5", "V-5", 5, -1), Occupied("K-9", "V-9", 9, 7), Occupied("K-17", "V-17", 17, -1)], 6)
  const B5: Table<string> := Table([Empty, Occupied("K-1", "V-1", 1, 6), Empty, Empty, Occupied("K-21", "V-21", 21, -1), Occupied("K-5", "V-5", 5, 4), Occupied("K-9", "V-9", 9, 7), Occupied("K-17", "V-17", 17, -1)], 4)
  const C1: Table<string> := Table([Empty, Occupied("K-1", "V-1", 1, 6), Empty, Empty, Empty, Occupied("K-21", "V-21", 21, -1), Occupied("K-9", "V-9", 9, 7), Occupied("K-17", "V-17", 17, -1)], 4)
  const D1: Table<string> := Table([Empty, Occupied("K-1", "V-1", 1, -1), Empty, Occupied("K-21", "V-21", 21, 4), Occupied("K-9", "V-9", 9, -1), Occupied("K-17", "V-17", 17, -1)], 4)
  const E1: Table<string> := Table([Empty, Occupied("K-1", "V-1", 1, -1), Empty, Occupied("K-9", "V-9", 9, -1), Empty, Occupied("K-17", "V-17", 17, -1)], 4)

  /** tiny_hash_create(4, ...): both tables start as four empty slots. */
  lemma Created()
    ensures Fresh<string>(4) == A0 && Fresh<string>(4) == B0
  {
  }

  lemma PutA1()
    ensures Put(A0, "K-1", "V-1", FirstNumber("K-1"), 0, 1) == A1
  {
    HashK1();
  }

  lemma DumpA1()
    ensures Dump(A1.slots) == [(1, 1, -1)]
  {
    assert DumpFrom(A1.slots, 3) == [];
    assert DumpFrom(A1.slots, 2) == [];
    assert DumpFrom(A1.slots, 1) == [(1, 1, -1)];
  }

  lemma PutA2()
    ensures Put(A1, "K-5", "V-5", FirstNumber("K-5"), 0, 1) == A2
  {
    HashK5();
  }

  lemma DumpA2()
    ensures Dump(A2.slots) == [(1, 1, 3), (3, 5, -1)]
  {
    assert DumpFrom(A2.slots, 3) == [(3, 5, -1)];
    assert DumpFrom(A2.slots, 2) == [(3, 5, -1)];
    assert DumpFrom(A2.slots, 1) == [(1, 1, 3), (3, 5, -1)];
  }

  lemma PutA3()
    ensures Put(A2, "K-17", "V-17", FirstNumber("K-17"), 0, 1) == A3
  {
    HashK17();
  }

  lemma DumpA3()
    ensures Dump(A3.slots) == [(1, 1, 2), (2, 17, 3), (3, 5, -1)]
  {
    assert DumpFrom(A3.slots, 3) == [(3, 5, -1)];
    assert DumpFrom(A3.slots, 2) == [(2, 17, 3), (3, 5, -1)];
    assert DumpFrom(A3.slots, 1) == [(1, 1, 2), (2, 17, 3), (3, 5, -1)];
  }

  lemma PutA4()
    ensures Put(A3, "K-2", "V-2", FirstNumber("K-2"), 0, 1) == A4
  {
    HashK2();
  }

  lemma DumpA4()
    ensures Dump(A4.slots) == [(0, 17, 3), (1, 1, 0), (2, 2, -1), (3, 5, -1)]
  {
    assert DumpFrom(A4.slots, 3) == [(3, 5, -1)];
    assert DumpFrom(A4.slots, 2) == [(2, 2, -1), (3, 5, -1)];
    assert DumpFrom(A4.slots, 1) == [(1, 1, 0), (2, 2, -1), (3, 5, -1)];
  }

  lemma PutA5()
    ensures Put(A4, "K-9", "V-9", FirstNumber("K-9"), 0, 1) == A5
  {
    HashK9();
    assert Place(A4, "K-9", "V-9", 9).None?;
    assert Replay(A4.slots, 1, 8) == Table([Empty, Occupied("K-17", "V-17", 17, -1), Empty, Empty, Empty, Empty, Empty, Empty], 8);
    assert Replay(A4.slots, 2, 8) == Table([Empty, Occupied("K-17", "V-17", 17, 7), Empty, Empty, Empty, Empty, Empty, Occupied("K-1", "V-1", 1, -1)], 7);
    assert Replay(A4.slots, 3, 8) == Table([Empty, Occupied("K-17", "V-17", 17, 7), Occupied("K-2", "V-2", 2, -1), Empty, Empty, Empty, Empty, Occupied("K-1", "V-1", 1, -1)], 7);
    assert Replay(A4.slots, 4, 8) == Table([Empty, Occupied("K-17", "V-17", 17, 7), Occupied("K-2", "V-2", 2, -1), Empty, Empty, Occupied("K-5", "V-5", 5, -1), Empty, Occupied("K-1", "V-1", 1, -1)], 7);
  }

  lemma DumpA5()
    ensures Dump(A5.slots) == [(1, 17, 6), (2, 2, -1), (5, 5, -1), (6, 9, 7), (7, 1, -1)]
  {
    assert DumpFrom(A5.slots, 7) == [(7, 1, -1)];
    assert DumpFrom(A5.slots, 6) == [(6, 9, 7), (7, 1, -1)];
    assert DumpFrom(A5.slots, 5) == [(5, 5, -1), (6, 9, 7), (7, 1, -1)];
    assert DumpFrom(A5.slots, 4) == [(5, 5, -1), (6, 9, 7), (7, 1, -1)];
    assert DumpFrom(A5.slots, 3) == [(5, 5, -1), (6, 9, 7), (7, 1, -1)];
    assert DumpFrom(A5.slots, 2) == [(2, 2, -1), (5, 5, -1), (6, 9, 7), (7, 1, -1)];
    assert DumpFrom(A5.slots, 1) == [(1, 17, 6), (2, 2, -1), (5, 5, -1), (6, 9, 7), (7, 1, -1)];
  }

  lemma PutA6()
    ensures Put(A5, "K-25", "V-25", FirstNumber("K-25"), 0, 1) == A6
  {
    HashK25();
  }

  lemma DumpA6()
    ensures Dump(A6.slots) == [(1, 17, 4), (2, 2, -1), (4, 25, 6), (5, 5, -1), (6, 9, 7), (7, 1, -1)]
  {
    assert DumpFrom(A6.slots, 7) == [(7, 1, -1)];
    assert DumpFrom(A6.slots, 6) == [(6, 9, 7), (7, 1, -1)];
    assert DumpFrom(A6.slots, 5) == [(5, 5, -1), (6, 9, 7), (7, 1, -1)];
    assert DumpFrom(A6.slots, 4) == [(4, 25, 6), (5, 5, -1), (6, 9, 7), (7, 1, -1)];
    assert DumpFrom(A6.slots, 3) == [(4, 25, 6), (5, 5, -1), (6, 9, 7), (7, 1, -1)];
    assert DumpFrom(A6.slots, 2) == [(2, 2, -1), (4, 25, 6), (5, 5, -1), (6, 9, 7), (7, 1, -1)];
    assert DumpFrom(A6.slots, 1) == [(1, 17, 4), (2, 2, -1), (4, 25, 6), (5, 5, -1), (6, 9, 7), (7, 1, -1)];
  }

  lemma PutA7()
    ensures Put(A6, "K-33", "V-33", FirstNumber("K-33"), 0, 1) == A7
  {
    HashK33();
  }

  lemma DumpA7()
    ensures Dump(A7.slots) == [(1, 17, 3), (2, 2, -1), (3, 33, 4), (4, 25, 6), (5, 5, -1), (6, 9, 7), (7, 1, -1)]
  {
    assert DumpFrom(A7.slots, 7) == [(7, 1, -1)];
    assert DumpFrom(A7.slots, 6) == [(6, 9, 7), (7, 1, -1)];
    assert DumpFrom(A7.slots, 5) == [(5, 5, -1), (6, 9, 7), (7, 1, -1)];
    assert DumpFrom(A7.slots, 4) == [(4, 25, 6), (5, 5, -1), (6, 9, 7), (7, 1, -1)];
    assert DumpFrom(A7.slots, 3) == [(3, 33, 4), (4, 25, 6), (5, 5, -1), (6, 9, 7), (7, 1, -1)];
    assert DumpFrom(A7.slots, 2) == [(2, 2, -1), (3, 33, 4), (4, 25, 6), (5, 5, -1), (6, 9, 7), (7, 1, -1)];
    assert DumpFrom(A7.slots, 1) == [(1, 17, 3), (2, 2, -1), (3, 33, 4), (4, 25, 6), (5, 5, -1), (6, 9, 7), (7, 1, -1)];
  }

  /** Every key of test_cases_1 and test_cases_2 reads back its value; K-100 and K-41 are absent. */
  lemma GetsAfterInserts()
    ensures Lookup(A7.slots, "K-1") == Some("V-1")
    ensures Lookup(A7.slots, "K-5") == Some("V-5")
    ensures Lookup(A7.slots, "K-17") == Some("V-17")
    ensures Lookup(A7.slots, "K-2") == Some("V-2")
    ensures Lookup(A7.slots, "K-9") == Some("V-9")
    ensures Lookup(A7.slots, "K-25") == Some("V-25")
    ensures Lookup(A7.slots, "K-33") == Some("V-33")
    ensures Lookup(A7.slots, "K-100") == None && Lookup(A7.slots, "K-41") == None
  {
  }

  lemma RemoveR1()
    ensures Remove(A7, "K-2") == (R1, true)
  {
    assert IndexOf(A7.slots, "K-2", 0) == Some(2);
    assert A7.slots[2 := Empty] == R1.slots;
  }

  lemma DumpR1()
    ensures Dump(R1.slots) == [(1, 17, 3), (3, 33, 4), (4, 25, 6), (5, 5, -1), (6, 9, 7), (7, 1, -1)]
  {
    assert DumpFrom(R1.slots, 7) == [(7, 1, -1)];
    assert DumpFrom(R1.slots, 6) == [(6, 9, 7), (7, 1, -1)];
    assert DumpFrom(R1.slots, 5) == [(5, 5, -1), (6, 9, 7), (7, 1, -1)];
    assert DumpFrom(R1.slots, 4) == [(4, 25, 6), (5, 5, -1), (6, 9, 7), (7, 1, -1)];
    assert DumpFrom(R1.slots, 3) == [(3, 33, 4), (4, 25, 6), (5, 5, -1), (6, 9, 7), (7, 1, -1)];
    assert DumpFrom(R1.slots, 2) == [(3, 33, 4), (4, 25, 6), (5, 5, -1), (6, 9, 7), (7, 1, -1)];
    assert DumpFrom(R1.slots, 1) == [(1, 17, 3), (3, 33, 4), (4, 25, 6), (5, 5, -1), (6, 9, 7), (7, 1, -1)];
  }

  lemma RemoveR2()
    ensures Remove(R1, "K-1") == (R2, true)
  {
    assert IndexOf(R1.slots, "K-1", 0) == Some(7);
    assert FindPred(R1.slots, 7, 0) == Some(6);
    assert R1.slots[6 := R1.slots[6].(next := -1)][7 := Empty] == R2.slots;
  }

  lemma DumpR2()
    ensures Dump(R2.slots) == [(1, 17, 3), (3, 33, 4), (4, 25, 6), (5, 5, -1), (6, 9, -1)]
  {
    assert DumpFrom(R2.slots, 7) == [];
    assert DumpFrom(R2.slots, 6) == [(6, 9, -1)];
    assert DumpFrom(R2.slots, 5) == [(5, 5, -1), (6, 9, -1)];
    assert DumpFrom(R2.slots, 4) == [(4, 25, 6), (5, 5, -1), (6, 9, -1)];
    assert DumpFrom(R2.slots, 3) == [(3, 33, 4), (4, 25, 6), (5, 5, -1), (6, 9, -1)];
    assert DumpFrom(R2.slots, 2) == [(3, 33, 4), (4, 25, 6), (5, 5, -1), (6, 9, -1)];
    assert DumpFrom(R2.slots, 1) == [(1, 17, 3), (3, 33, 4), (4, 25, 6), (5, 5, -1), (6, 9, -1)];
  }

  lemma RemoveR3()
    ensures Remove(R2, "K-25") == (R3, true)
  {
    assert IndexOf(R2.slots, "K-25", 0) == Some(4);
    assert FindPred(R2.slots, 4, 0) == Some(3);
    assert R2.slots[3 := R2.slots[3].(next := 6)][4 := Empty] == R3.slots;
  }

  lemma DumpR3()
    ensures Dump(R3.slots) == [(1, 17, 3), (3, 33, 6), (5, 5, -1), (6, 9, -1)]
  {
    assert DumpFrom(R3.slots, 7) == [];
    assert DumpFrom(R3.slots, 6) == [(6, 9, -1)];
    assert DumpFrom(R3.slots, 5) == [(5, 5, -1), (6, 9, -1)];
    assert DumpFrom(R3.slots, 4) == [(5, 5, -1), (6, 9, -1)];
    assert DumpFrom(R3.slots, 3) == [(3, 33, 6), (5, 5, -1), (6, 9, -1)];
    assert DumpFrom(R3.slots, 2) == [(3, 33, 6), (5, 5, -1), (6, 9, -1)];
    assert DumpFrom(R3.slots, 1) == [(1, 17, 3), (3, 33, 6), (5, 5, -1), (6, 9, -1)];
  }

  lemma RemoveR4()
    ensures Remove(R3, "K-17") == (R4, true)
  {
    assert IndexOf(R3.slots, "K-17", 0) == Some(1);
    assert R3.slots[1 := R3.slots[3]][3 := Empty] == R4.slots;
  }

  lemma DumpR4()
    ensures Dump(R4.slots) == [(1, 33, 6), (5, 5, -1), (6, 9, -1)]
  {
    assert DumpFrom(R4.slots, 7) == [];
    assert DumpFrom(R4.slots, 6) == [(6, 9, -1)];
    assert DumpFrom(R4.slots, 5) == [(5, 5, -1), (6, 9, -1)];
    assert DumpFrom(R4.slots, 4) == [(5, 5, -1), (6, 9, -1)];
    assert DumpFrom(R4.slots, 3) == [(5, 5, -1), (6, 9, -1)];
    assert DumpFrom(R4.slots, 2) == [(5, 5, -1), (6, 9, -1)];
    assert DumpFrom(R4.slots, 1) == [(1, 33, 6), (5, 5, -1), (6, 9, -1)];
  }

  lemma RemoveR5()
    ensures Remove(R4, "K-9") == (R5, true)
  {
    assert IndexOf(R4.slots, "K-9", 0) == Some(6);
    assert FindPred(R4.slots, 6, 0) == Some(1);
    assert R4.slots[1 := R4.slots[1].(next := -1)][6 := Empty] == R5.slots;
  }

  lemma DumpR5()
    ensures Dump(R5.slots) == [(1, 33, -1), (5, 5, -1)]
  {
    assert DumpFrom(R5.slots, 7) == [];
    assert DumpFrom(R5.slots, 6) == [];
    assert DumpFrom(R5.slots, 5) == [(5, 5, -1)];
    assert DumpFrom(R5.slots, 4) == [(5, 5, -1)];
    assert DumpFrom(R5.slots, 3) == [(5, 5, -1)];
    assert DumpFrom(R5.slots, 2) == [(5, 5, -1)];
    assert DumpFrom(R5.slots, 1) == [(1, 33, -1), (5, 5, -1)];
  }

  lemma RemoveR6()
    ensures Remove(R5, "K-5") == (R6, true)
  {
    assert IndexOf(R5.slots, "K-5", 0) == Some(5);
    assert R5.slots[5 := Empty] == R6.slots;
  }

  lemma DumpR6()
    ensures Dump(R6.slots) == [(1, 33, -1)]
  {
    assert DumpFrom(R6.slots, 7) == [];
    assert DumpFrom(R6.slots, 6) == [];
    assert DumpFrom(R6.slots, 5) == [];
    assert DumpFrom(R6.slots, 4) == [];
    assert DumpFrom(R6.slots, 3) == [];
    assert DumpFrom(R6.slots, 2) == [];
    assert DumpFrom(R6.slots, 1) == [(1, 33, -1)];
  }

  lemma RemoveR7()
    ensures Remove(R6, "K-33") == (R7, true)
  {
    assert IndexOf(R6.slots, "K-33", 0) == Some(1);
    assert R6.slots[1 := Empty] == R7.slots;
  }

  lemma DumpR7()
    ensures Dump(R7.slots) == []
  {
    assert DumpFrom(R7.slots, 7) == [];
    assert DumpFrom(R7.slots, 6) == [];
    assert DumpFrom(R7.slots, 5) == [];
    assert DumpFrom(R7.slots, 4) == [];
    assert DumpFrom(R7.slots, 3) == [];
    assert DumpFrom(R7.slots, 2) == [];
    assert DumpFrom(R7.slots, 1) == [];
  }

  lemma DumpB0()
    ensures Dump(B0.slots) == []
  {
    assert DumpFrom(B0.slots, 3) == [];
    assert DumpFrom(B0.slots, 2) == [];
    assert DumpFrom(B0.slots, 1) == [];
  }

  lemma PutB1()
    ensures Put(B0, "K-1", "V-1", FirstNumber("K-1"), 3, 4) == B1
  {
    HashK1();
    CountB0();
    assert IndexOf(B0.slots, "K-1", 0) == None;
    assert !GrowDue(B0, 3, 4);
  }

  lemma DumpB1()
    ensures Dump(B1.slots) == [(1, 1, -1)]
  {
    assert DumpFrom(B1.slots, 3) == [];
    assert DumpFrom(B1.slots, 2) == [];
    assert DumpFrom(B1.slots, 1) == [(1, 1, -1)];
  }

  lemma CountB0()
    ensures CountOccupied(B0.slots) == 0
  {
    DumpCount(B0.slots);
    DumpB0();
  }

  lemma PutB2()
    ensures Put(B1, "K-5", "V-5", FirstNumber("K-5"), 3, 4) == B2
  {
    HashK5();
    CountB1();
    assert IndexOf(B1.slots, "K-5", 0) == None;
    assert !GrowDue(B1, 3, 4);
  }

  lemma DumpB2()
    ensures Dump(B2.slots) == [(1, 1, 3), (3, 5, -1)]
  {
    assert DumpFrom(B2.slots, 3) == [(3, 5, -1)];
    assert DumpFrom(B2.slots, 2) == [(3, 5, -1)];
    assert DumpFrom(B2.slots, 1) == [(1, 1, 3), (3, 5, -1)];
  }

  lemma CountB1()
    ensures CountOccupied(B1.slots) == 1
  {
    DumpCount(B1.slots);
    DumpB1();
  }

  lemma PutB3()
    ensures Put(B2, "K-17", "V-17", FirstNumber("K-17"), 3, 4) == B3
  {
    HashK17();
    CountB2();
    assert IndexOf(B2.slots, "K-17", 0) == None;
    assert !GrowDue(B2, 3, 4);
  }

  lemma DumpB3()
    ensures Dump(B3.slots) == [(1, 1, 2), (2, 17, 3), (3, 5, -1)]
  {
    assert DumpFrom(B3.slots, 3) == [(3, 5, -1)];
    assert DumpFrom(B3.slots, 2) == [(2, 17, 3), (3, 5, -1)];
    assert DumpFrom(B3.slots, 1) == [(1, 1, 2), (2, 17, 3), (3, 5, -1)];
  }

  lemma CountB2()
    ensures CountOccupied(B2.slots) == 2
  {
    DumpCount(B2.slots);
    DumpB2();
  }

  lemma PutB4()
    ensures Put(B3, "K-9", "V-9", FirstNumber("K-9"), 3, 4) == B4
  {
    HashK9();
    CountB3();
    assert IndexOf(B3.slots, "K-9", 0) == None;
    assert GrowDue(B3, 3, 4);
    assert Replay(B3.slots, 2, 8) == Table([Empty, Occupied("K-1", "V-1", 1, -1), Empty, Empty, Empty, Empty, Empty, Empty], 8);
    assert Replay(B3.slots, 3, 8) == Table([Empty, Occupied("K-1", "V-1", 1, 7), Empty, Empty, Empty, Empty, Empty, Occupied("K-17", "V-17", 17, -1)], 7);
    assert Replay(B3.slots, 4, 8) == Table([Empty, Occupied("K-1", "V-1", 1, 7), Empty, Empty, Empty, Occupied("K-5", "V-5", 5, -1), Empty, Occupied("K-17", "V-17", 17, -1)], 7);
  }

  lemma DumpB4()
    ensures Dump(B4.slots) == [(1, 1, 6), (5, 5, -1), (6, 9, 7), (7, 17, -1)]
  {
    assert DumpFrom(B4.slots, 7) == [(7, 17, -1)];
    assert DumpFrom(B4.slots, 6) == [(6, 9, 7), (7, 17, -1)];
    assert DumpFrom(B4.slots, 5) == [(5, 5, -1), (6, 9, 7), (7, 17, -1)];
    assert DumpFrom(B4.slots, 4) == [(5, 5, -1), (6, 9, 7), (7, 17, -1)];
    assert DumpFrom(B4.slots, 3) == [(5, 5, -1), (6, 9, 7), (7, 17, -1)];
    assert DumpFrom(B4.slots, 2) == [(5, 5, -1), (6, 9, 7), (7, 17, -1)];
    assert DumpFrom(B4.slots, 1) == [(1, 1, 6), (5, 5, -1), (6, 9, 7), (7, 17, -1)];
  }

  lemma CountB3()
    ensures CountOccupied(B3.slots) == 3
  {
    DumpCount(B3.slots);
    DumpB3();
  }

  lemma PutB5()
    ensures Put(B4, "K-21", "V-21", FirstNumber("K-21"), 3, 4) == B5
  {
    HashK21();
    CountB4();
    assert IndexOf(B4.slots, "K-21", 0) == None;
    assert !GrowDue(B4, 3, 4);
  }

  lemma DumpB5()
    ensures Dump(B5.slots) == [(1, 1, 6), (4, 21, -1), (5, 5, 4), (6, 9, 7), (7, 17, -1)]
  {
    assert DumpFrom(B5.slots, 7) == [(7, 17, -1)];
    assert DumpFrom(B5.slots, 6) == [(6, 9, 7), (7, 17, -1)];
    assert DumpFrom(B5.slots, 5) == [(5, 5, 4), (6, 9, 7), (7, 17, -1)];
    assert DumpFrom(B5.slots, 4) == [(4, 21, -1), (5, 5, 4), (6, 9, 7), (7, 17, -1)];
    assert DumpFrom(B5.slots, 3) == [(4, 21, -1), (5, 5, 4), (6, 9, 7), (7, 17, -1)];
    assert DumpFrom(B5.slots, 2) == [(4, 21, -1), (5, 5, 4), (6, 9, 7), (7, 17, -1)];
    assert DumpFrom(B5.slots, 1) == [(1, 1, 6), (4, 21, -1), (5, 5, 4), (6, 9, 7), (7, 17, -1)];
  }

  lemma CountB4()
    ensures CountOccupied(B4.slots) == 4
  {
    DumpCount(B4.slots);
    DumpB4();
  }

  lemma RemoveC1()
    ensures Remove(B5, "K-5") == (C1, true)
  {
    assert IndexOf(B5.slots, "K-5", 0) == Some(5);
    assert B5.slots[5 := B5.slots[4]][4 := Empty] == C1.slots;
  }

  lemma DumpC1()
    ensures Dump(C1.slots) == [(1, 1, 6), (5, 21, -1), (6, 9, 7), (7, 17, -1)]
  {
    assert DumpFrom(C1.slots, 7) == [(7, 17, -1)];
    assert DumpFrom(C1.slots, 6) == [(6, 9, 7), (7, 17, -1)];
    assert DumpFrom(C1.slots, 5) == [(5, 21, -1), (6, 9, 7), (7, 17, -1)];
    assert DumpFrom(C1.slots, 4) == [(5, 21, -1), (6, 9, 7), (7, 17, -1)];
    assert DumpFrom(C1.slots, 3) == [(5, 21, -1), (6, 9, 7), (7, 17, -1)];
    assert DumpFrom(C1.slots, 2) == [(5, 21, -1), (6, 9, 7), (7, 17, -1)];
    assert DumpFrom(C1.slots, 1) == [(1, 1, 6), (5, 21, -1), (6, 9, 7), (7, 17, -1)];
  }

  /** resize_6_dump: resizing the second table to six slots. */
  lemma Resize6()
    ensures Slots.Resize(C1, 6) == D1
  {
    assert Replay(C1.slots, 2, 6) == Table([Empty, Occupied("K-1", "V-1", 1, -1), Empty, Empty, Empty, Empty], 6);
    assert Replay(C1.slots, 6, 6) == Table([Empty, Occupied("K-1", "V-1", 1, -1), Empty, Occupied("K-21", "V-21", 21, -1), Empty, Empty], 6);
    assert Replay(C1.slots, 7, 6) == Table([Empty, Occupied("K-1", "V-1", 1, -1), Empty, Occupied("K-21", "V-21", 21, 5), Empty, Occupied("K-9", "V-9", 9, -1)], 5);
    assert Replay(C1.slots, 8, 6) == Table([Empty, Occupied("K-1", "V-1", 1, -1), Empty, Occupied("K-21", "V-21", 21, 4), Occupied("K-9", "V-9", 9, -1), Occupied("K-17", "V-17", 17, -1)], 4);
  }

  lemma DumpD1()
    ensures Dump(D1.slots) == [(1, 1, -1), (3, 21, 4), (4, 9, -1), (5, 17, -1)]
  {
    assert DumpFrom(D1.slots, 5) == [(5, 17, -1)];
    assert DumpFrom(D1.slots, 4) == [(4, 9, -1), (5, 17, -1)];
    assert DumpFrom(D1.slots, 3) == [(3, 21, 4), (4, 9, -1), (5, 17, -1)];
    assert DumpFrom(D1.slots, 2) == [(3, 21, 4), (4, 9, -1), (5, 17, -1)];
    assert DumpFrom(D1.slots, 1) == [(1, 1, -1), (3, 21, 4), (4, 9, -1), (5, 17, -1)];
  }

  /** The resize keeps the number of entries, four. */
  lemma Resize6Count()
    ensures CountOccupied(D1.slots) == CountOccupied(C1.slots) == 4
  {
    DumpCount(D1.slots);
    DumpD1();
    DumpCount(C1.slots);
    DumpC1();
  }

  /** The last checks of the test program: K-41 and X-21 are not found (X-21 shares the hash
      of K-21 but not its key), K-21 is removed, and three entries remain. */
  lemma FinalRemoves()
    ensures Remove(D1, "K-41") == (D1, false) && Remove(D1, "X-21") == (D1, false)
    ensures Remove(D1, "K-21") == (E1, true)
  {
    assert IndexOf(D1.slots, "K-41", 0) == None;
    assert IndexOf(D1.slots, "X-21", 0) == None;
    assert IndexOf(D1.slots, "K-21", 0) == Some(3);
    assert D1.slots[3 := D1.slots[4]][4 := Empty] == E1.slots;
  }

  lemma DumpE1()
    ensures Dump(E1.slots) == [(1, 1, -1), (3, 9, -1), (5, 17, -1)]
  {
    assert DumpFrom(E1.slots, 5) == [(5, 17, -1)];
    assert DumpFrom(E1.slots, 4) == [(5, 17, -1)];
    assert DumpFrom(E1.slots, 3) == [(3, 9, -1), (5, 17, -1)];
    assert DumpFrom(E1.slots, 2) == [(3, 9, -1), (5, 17, -1)];
    assert DumpFrom(E1.slots, 1) == [(1, 1, -1), (3, 9, -1), (5, 17, -1)];
  }

  /** Three entries remain at the end. */
  lemma FinalCount()
    ensures CountOccupied(E1.slots) == 3
  {
    DumpCount(E1.slots);
    DumpE1();
  }
  /** test_cases_1: four puts into the first table, each followed by its dump. */
  lemma TestCases1()
    ensures Put(A0, "K-1", "V-1", FirstNumber("K-1"), 0, 1) == A1 && Dump(A1.slots) == [(1, 1, -1)]
    ensures Put(A1, "K-5", "V-5", FirstNumber("K-5"), 0, 1) == A2 && Dump(A2.slots) == [(1, 1, 3), (3, 5, -1)]
    ensures Put(A2, "K-17", "V-17", FirstNumber("K-17"), 0, 1) == A3 && Dump(A3.slots) == [(1, 1, 2), (2, 17, 3), (3, 5, -1)]
    ensures Put(A3, "K-2", "V-2", FirstNumber("K-2"), 0, 1) == A4 && Dump(A4.slots) == [(0, 17, 3), (1, 1, 0), (2, 2, -1), (3, 5, -1)]
  {
    PutA1();
    DumpA1();
    PutA2();
    DumpA2();
    PutA3();
    DumpA3();
    PutA4();
    DumpA4();
  }

  /** test_cases_2: the fifth put finds no free slot and doubles the table; two more puts follow. */
  lemma TestCases2()
    ensures Put(A4, "K-9", "V-9", FirstNumber("K-9"), 0, 1) == A5 && Dump(A5.slots) == [(1, 17, 6), (2, 2, -1), (5, 5, -1), (6, 9, 7), (7, 1, -1)]
    ensures Put(A5, "K-25", "V-25", FirstNumber("K-25"), 0, 1) == A6 && Dump(A6.slots) == [(1, 17, 4), (2, 2, -1), (4, 25, 6), (5, 5, -1), (6, 9, 7), (7, 1, -1)]
    ensures Put(A6, "K-33", "V-33", FirstNumber("K-33"), 0, 1) == A7 && Dump(A7.slots) == [(1, 17, 3), (2, 2, -1), (3, 33, 4), (4, 25, 6), (5, 5, -1), (6, 9, 7), (7, 1, -1)]
  {
    PutA5();
    DumpA5();
    PutA6();
    DumpA6();
    PutA7();
    DumpA7();
  }

  /** test_cases_3: the seven keys removed one by one until the table is empty. */
  lemma TestCases3()
    ensures Remove(A7, "K-2") == (R1, true) && Dump(R1.slots) == [(1, 17, 3), (3, 33, 4), (4, 25, 6), (5, 5, -1), (6, 9, 7), (7, 1, -1)]
    ensures Remove(R1, "K-1") == (R2, true) && Dump(R2.slots) == [(1, 17, 3), (3, 33, 4), (4, 25, 6), (5, 5, -1), (6, 9, -1)]
    ensures Remove(R2, "K-25") == (R3, true) && Dump(R3.slots) == [(1, 17, 3), (3, 33, 6), (5, 5, -1), (6, 9, -1)]
    ensures Remove(R3, "K-17") == (R4, true) && Dump(R4.slots) == [(1, 33, 6), (5, 5, -1), (6, 9, -1)]
    ensures Remove(R4, "K-9") == (R5, true) && Dump(R5.slots) == [(1, 33, -1), (5, 5, -1)]
    ensures Remove(R5, "K-5") == (R6, true) && Dump(R6.slots) == [(1, 33, -1)]
    ensures Remove(R6, "K-33") == (R7, true) && Dump(R7.slots) == []
  {
    RemoveR1();
    DumpR1();
    RemoveR2();
    DumpR2();
    RemoveR3();
    DumpR3();
    RemoveR4();
    DumpR4();
    RemoveR5();
    DumpR5();
    RemoveR6();
    DumpR6();
    RemoveR7();
    DumpR7();
  }

  /** test_cases_4: three puts into the second table. */
  lemma TestCases4()
    ensures Put(B0, "K-1", "V-1", FirstNumber("K-1"), 3, 4) == B1 && Dump(B1.slots) == [(1, 1, -1)]
    ensures Put(B1, "K-5", "V-5", FirstNumber("K-5"), 3, 4) == B2 && Dump(B2.slots) == [(1, 1, 3), (3, 5, -1)]
    ensures Put(B2, "K-17", "V-17", FirstNumber("K-17"), 3, 4) == B3 && Dump(B3.slots) == [(1, 1, 2), (2, 17, 3), (3, 5, -1)]
  {
    PutB1();
    DumpB1();
    PutB2();
    DumpB2();
    PutB3();
    DumpB3();
  }

  /** test_cases_5: the fourth put is over the threshold and doubles the table first. */
  lemma TestCases5()
    ensures Put(B3, "K-9", "V-9", FirstNumber("K-9"), 3, 4) == B4 && Dump(B4.slots) == [(1, 1, 6), (5, 5, -1), (6, 9, 7), (7, 17, -1)]
    ensures Put(B4, "K-21", "V-21", FirstNumber("K-21"), 3, 4) == B5 && Dump(B5.slots) == [(1, 1, 6), (4, 21, -1), (5, 5, 4), (6, 9, 7), (7, 17, -1)]
  {
    PutB4();
    DumpB4();
    PutB5();
    DumpB5();
  }

  /** test_cases_6: removing K-5, whose anchor slot takes over its successor. */
  lemma TestCases6()
    ensures Remove(B5, "K-5") == (C1, true) && Dump(C1.slots) == [(1, 1, 6), (5, 21, -1), (6, 9, 7), (7, 17, -1)]
  {
    RemoveC1();
    DumpC1();
  }

}
