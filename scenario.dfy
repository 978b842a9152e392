/**
 * The test program's main function run against the TinyHash class: both
 * tables are built through the class methods, and the values, dumps, flags
 * and counts the program checks follow from the layouts in Vectors.
 */
module TestProgram {
  import opened Slots
  import opened Hasher
  import opened Semantics
  import opened TinyHashTable
  import opened Vectors

  /** test_cases_1 put into the first table. */
  method InsertTestCases1(t: TinyHash<string>)
    requires t.Valid() && t.State() == A0
    requires t.hasher == FirstNumber && t.maxFullNum == 0 && t.maxFullDen == 1
    modifies t, t.nodes
    ensures t.Valid() && t.State() == A4
    ensures t.nodes == old(t.nodes) || fresh(t.nodes)
  {
    PutA1();
    t.Put("K-1", "V-1");
    PutA2();
    t.Put("K-5", "V-5");
    PutA3();
    t.Put("K-17", "V-17");
    PutA4();
    t.Put("K-2", "V-2");
  }

  /** test_cases_2 put into the first table. */
  method InsertTestCases2(t: TinyHash<string>)
    requires t.Valid() && t.State() == A4
    requires t.hasher == FirstNumber && t.maxFullNum == 0 && t.maxFullDen == 1
    modifies t, t.nodes
    ensures t.Valid() && t.State() == A7
    ensures t.nodes == old(t.nodes) || fresh(t.nodes)
  {
    PutA5();
    t.Put("K-9", "V-9");
    PutA6();
    t.Put("K-25", "V-25");
    PutA7();
    t.Put("K-33", "V-33");
  }

  /** test_cases_3 removed from the first table. */
  method RemoveTestCases3(t: TinyHash<string>)
    requires t.Valid() && t.State() == A7
    requires t.hasher == FirstNumber && t.maxFullNum == 0 && t.maxFullDen == 1
    modifies t, t.nodes
    ensures t.Valid() && t.State() == R7
    ensures t.nodes == old(t.nodes) || fresh(t.nodes)
  {
    RemoveR1();
    var r1 := t.Remove("K-2");
    RemoveR2();
    var r2 := t.Remove("K-1");
    RemoveR3();
    var r3 := t.Remove("K-25");
    RemoveR4();
    var r4 := t.Remove("K-17");
    RemoveR5();
    var r5 := t.Remove("K-9");
    RemoveR6();
    var r6 := t.Remove("K-5");
    RemoveR7();
    var r7 := t.Remove("K-33");
  }

  /** test_cases_4 put into the second table. */
  method InsertTestCases4(t: TinyHash<string>)
    requires t.Valid() && t.State() == B0
    requires t.hasher == FirstNumber && t.maxFullNum == 3 && t.maxFullDen == 4
    modifies t, t.nodes
    ensures t.Valid() && t.State() == B3
    ensures t.nodes == old(t.nodes) || fresh(t.nodes)
  {
    PutB1();
    t.Put("K-1", "V-1");
    PutB2();
    t.Put("K-5", "V-5");
    PutB3();
    t.Put("K-17", "V-17");
  }

  /** test_cases_5 put into the second table. */
  method InsertTestCases5(t: TinyHash<string>)
    requires t.Valid() && t.State() == B3
    requires t.hasher == FirstNumber && t.maxFullNum == 3 && t.maxFullDen == 4
    modifies t, t.nodes
    ensures t.Valid() && t.State() == B5
    ensures t.nodes == old(t.nodes) || fresh(t.nodes)
  {
    PutB4();
    t.Put("K-9", "V-9");
    PutB5();
    t.Put("K-21", "V-21");
  }

  /** test_cases_6 removed from the second table. */
  method RemoveTestCases6(t: TinyHash<string>)
    requires t.Valid() && t.State() == B5
    requires t.hasher == FirstNumber && t.maxFullNum == 3 && t.maxFullDen == 4
    modifies t, t.nodes
    ensures t.Valid() && t.State() == C1
    ensures t.nodes == old(t.nodes) || fresh(t.nodes)
  {
    RemoveC1();
    var r1 := t.Remove("K-5");
  }

  /** The first table: test_cases_1 and test_cases_2 inserted, every key read
      back, K-100 and K-41 absent, then test_cases_3 removes everything. */
  method FirstTable() returns (values: seq<Option<string>>, k100: Option<string>, k41: Option<string>, last: seq<(int, int, int)>)
    ensures values == [Some("V-1"), Some("V-5"), Some("V-17"), Some("V-2"), Some("V-9"), Some("V-25"), Some("V-33")]
    ensures k100 == None && k41 == None
    ensures last == []
  {
    Created();
    var t := new TinyHash<string>(4, FirstNumber, 0, 1);
    InsertTestCases1(t);
    InsertTestCases2(t);
    GetsAfterInserts();
    var v1 := t.Get("K-1");
    var v5 := t.Get("K-5");
    var v17 := t.Get("K-17");
    var v2 := t.Get("K-2");
    var v9 := t.Get("K-9");
    var v25 := t.Get("K-25");
    var v33 := t.Get("K-33");
    values := [v1, v5, v17, v2, v9, v25, v33];
    k100 := t.Get("K-100");
    k41 := t.Get("K-41");
    RemoveTestCases3(t);
    DumpR7();
    last := t.Dump();
  }

  /** The second table: test_cases_4 to test_cases_6, the resize to six slots
      with its dump, then the removes of K-41 and X-21 fail, that of K-21
      succeeds, and three entries remain. */
  method SecondTable() returns (resized: seq<(int, int, int)>, k41: int, x21: int, k21: int, count: nat)
    ensures resized == [(1, 1, -1), (3, 21, 4), (4, 9, -1), (5, 17, -1)]
    ensures k41 != 0 && x21 != 0 && k21 == 0
    ensures count == 3
  {
    Created();
    var t := new TinyHash<string>(4, FirstNumber, 3, 4);
    InsertTestCases4(t);
    InsertTestCases5(t);
    RemoveTestCases6(t);
    Resize6();
    Resize6Count();
    t.Resize(6);
    DumpD1();
    resized := t.Dump();
    FinalRemoves();
    k41 := t.Remove("K-41");
    x21 := t.Remove("X-21");
    k21 := t.Remove("K-21");
    FinalCount();
    CountIsSize(t.nodes[..]);
    count := t.Count();
  }
}
