/** The status columns of the report and test tables, and the two ways the service
    writes them: the guarded updateStatus(id, newStatus, expectedStatus) of the
    extension mappers, and updateByPrimaryKeySelective with the status set. */
module Status {

  /** The TestStatus values the service writes, in lifecycle order. */
  datatype TestStatus = Starting | Running | Reporting | Completed

  /** Row id to status, for the report table or for the test table. */
  type StatusTable = map<string, TestStatus>

  /** Position of a status in the lifecycle. */
  function Stage(s: TestStatus): nat {
    match s
    case Starting => 0
    case Running => 1
    case Reporting => 2
    case Completed => 3
  }

  /** updateStatus(id, newStatus, expectedStatus), read as a compare-and-set: the
      row changes to newStatus only when it exists and holds expectedStatus. */
  function CompareAndSet(t: StatusTable, id: string, newStatus: TestStatus, expected: TestStatus): (t': StatusTable)
    ensures t'.Keys == t.Keys
    ensures forall k :: k in t && k != id ==> t'[k] == t[k]
    ensures id in t ==> t'[id] == if t[id] == expected then newStatus else t[id]
  {
    if id in t && t[id] == expected then t[id := newStatus] else t
  }

  /** updateByPrimaryKeySelective with the status set: for a test, a record that
      holds only the id and the status; for a report, the row as read back with
      the new status and update time (the update time is not modelled). Either
      way the row takes the status whatever it held; an id with no row updates
      nothing. */
  function SetStatus(t: StatusTable, id: string, s: TestStatus): (t': StatusTable)
    ensures t'.Keys == t.Keys
    ensures forall k :: k in t && k != id ==> t'[k] == t[k]
    ensures id in t ==> t'[id] == s
  {
    if id in t then t[id := s] else t
  }

  /** A second identical compare-and-set changes nothing: repeated fragments of one
      report move it from Starting to Running once. */
  lemma CompareAndSetIdempotent(t: StatusTable, id: string, newStatus: TestStatus, expected: TestStatus)
    ensures CompareAndSet(CompareAndSet(t, id, newStatus, expected), id, newStatus, expected)
         == CompareAndSet(t, id, newStatus, expected)
  {
  }

  /** The compare-and-set changes the table exactly when the row exists, holds the
      expected status and the new status differs from it. */
  lemma CompareAndSetChanges(t: StatusTable, id: string, newStatus: TestStatus, expected: TestStatus)
    ensures CompareAndSet(t, id, newStatus, expected) != t
        <==> id in t && t[id] == expected && newStatus != expected
  {
    if id in t && t[id] == expected && newStatus != expected {
      assert CompareAndSet(t, id, newStatus, expected)[id] != t[id];
    }
  }

  /** A fragment that arrives after the report moved past Starting leaves the status
      alone: Running, Reporting and Completed are never rolled back to Running. */
  lemma LateFragmentKeepsStatus(t: StatusTable, id: string)
    requires id in t && t[id] != Starting
    ensures CompareAndSet(t, id, Running, Starting) == t
  {
  }

  /** Only the later of two status writes to one row is seen. */
  lemma SetStatusLastWins(t: StatusTable, id: string, a: TestStatus, b: TestStatus)
    ensures SetStatus(SetStatus(t, id, a), id, b) == SetStatus(t, id, b)
  {
  }

  /** A second tear-down message for a report that is already Completed: its
      unguarded Reporting write moves the row back in the lifecycle, and the
      generators run again. */
  lemma RepeatedTearDownRegresses(t: StatusTable, id: string)
    requires id in t && t[id] == Completed
    ensures SetStatus(t, id, Reporting)[id] == Reporting
    ensures !NoRegress(t, SetStatus(t, id, Reporting))
  {
  }

  /** No row of t' is at an earlier stage than the same row of t. */
  ghost predicate NoRegress(t: StatusTable, t': StatusTable) {
    t.Keys == t'.Keys && forall k :: k in t ==> Stage(t[k]) <= Stage(t'[k])
  }

  /** The three writes the service makes for one row, in the order it makes them
      (Starting to Running, then Reporting, then Completed), never move a row back
      in the lifecycle, from whatever state it is in before Reporting. */
  lemma {:induction false} LifecycleNoRegress(t: StatusTable, id: string)
    requires id in t ==> Stage(t[id]) <= Stage(Reporting)
    ensures var t1 := CompareAndSet(t, id, Running, Starting);
      var t2 := SetStatus(t1, id, Reporting);
      var t3 := SetStatus(t2, id, Completed);
      NoRegress(t, t1) && NoRegress(t1, t2) && NoRegress(t2, t3)
  {
    var t1 := CompareAndSet(t, id, Running, Starting);
    assert id in t1 ==> Stage(t1[id]) <= Stage(Reporting) by {
      if id in t {
        assert t1[id] == if t[id] == Starting then Running else t[id];
      }
    }
  }

  /** A row that starts at Starting ends at Completed after the service's writes,
      and is at Running after the first fragment however many follow. */
  lemma Lifecycle(t: StatusTable, id: string)
    requires id in t && t[id] == Starting
    ensures var t1 := CompareAndSet(t, id, Running, Starting);
      var t2 := SetStatus(t1, id, Reporting);
      var t3 := SetStatus(t2, id, Completed);
      t1[id] == Running && CompareAndSet(t1, id, Running, Starting) == t1 &&
      t2[id] == Reporting && t3[id] == Completed
  {
  }
}
