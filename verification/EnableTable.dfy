/**
 The enable/disable table of the charger: every source may ask for the connector
 to be enabled or disabled at a priority (0 is the highest), the winning entry decides.
 */
module EnableTable {
  datatype EnableSource =
    | Unspecified | LocalAPI | LocalKeyLock | ServiceTechnician | RemoteKeyLock | MobileApp | FirmwareUpdate | CSMS

  datatype EnableState = Unassigned | Enable | Disable

  datatype Entry = Entry(source: EnableSource, state: EnableState, priority: int)

  const DEFAULT_ENTRY := Entry(Unspecified, Unassigned, 10000)

  /** One entry per source. */
  predicate UniqueSources(table: seq<Entry>) {
    forall i, j :: 0 <= i < j < |table| ==> table[i].source != table[j].source
  }

  /** The table without its order. */
  ghost function Requests(table: seq<Entry>): (r: set<Entry>) {
    set e | e in table
  }

  /** What a last-write-wins map with one slot per source holds after `entry` is written to it. */
  ghost function Overwrite(requests: set<Entry>, entry: Entry): (r: set<Entry>) {
    (set e | e in requests && e.source != entry.source) + {entry}
  }

  /** Adds the entry or replaces the one of the same source (enable_disable_source_table_update). */
  method UpdateTable(table: seq<Entry>, entry: Entry) returns (r: seq<Entry>)
    requires UniqueSources(table)
    ensures UniqueSources(r)
    ensures Requests(r) == Overwrite(Requests(table), entry)
    ensures |table| <= |r| <= |table| + 1
  {
    var i := 0;
    while i < |table| && table[i].source != entry.source
      invariant 0 <= i <= |table|
      invariant forall j :: 0 <= j < i ==> table[j].source != entry.source
    {
      i := i + 1;
    }
    if i == |table| {
      r := table + [entry];
    } else {
      r := table[i := entry];
      forall e | e in table && e.source != entry.source ensures e in r {
        var j :| 0 <= j < |table| && table[j] == e;
        assert r[j] == e;
      }
      assert r[i] == entry;
    }
  }

  /** The entry last written for its source. */
  ghost predicate IsLatest(history: seq<Entry>, e: Entry) {
    exists i :: 0 <= i < |history| && history[i] == e && forall j :: i < j < |history| ==> history[j].source != e.source
  }

  /** After any history of writes the table holds, for each source, exactly its latest request. */
  method ReplayTable(history: seq<Entry>) returns (table: seq<Entry>)
    ensures UniqueSources(table)
    ensures forall e :: e in table <==> IsLatest(history, e)
  {
    table := [];
    var n := 0;
    while n < |history|
      invariant 0 <= n <= |history|
      invariant UniqueSources(table)
      invariant forall e :: e in table <==> IsLatest(history[..n], e)
    {
      ghost var before := table;
      table := UpdateTable(table, history[n]);
      forall e ensures e in table <==> IsLatest(history[..n + 1], e) {
        assert e in table <==> e in Requests(table);
        assert e in before <==> e in Requests(before);
        LatestAfterWrite(history[..n], history[n], e);
        assert history[..n + 1] == history[..n] + [history[n]];
      }
      n := n + 1;
    }
    assert history[..n] == history;
  }

  lemma LatestAfterWrite(history: seq<Entry>, entry: Entry, e: Entry)
    ensures IsLatest(history + [entry], e) <==> e == entry || (e.source != entry.source && IsLatest(history, e))
  {
    var h := history + [entry];
    if e == entry {
      assert h[|history|] == e;
    } else if e.source != entry.source && IsLatest(history, e) {
      var i :| 0 <= i < |history| && history[i] == e && forall j :: i < j < |history| ==> history[j].source != e.source;
      assert h[i] == e;
    }
    if IsLatest(h, e) && e != entry {
      var i :| 0 <= i < |h| && h[i] == e && forall j :: i < j < |h| ==> h[j].source != e.source;
      assert h[|history|].source != e.source;
      assert history[i] == e;
      forall j | i < j < |history| ensures history[j].source != e.source {
        assert h[j].source != e.source;
      }
    }
  }

  /**
   What the decision means, without any order: some assigned Disable request has a
   priority number no larger than every assigned request.
   */
  ghost predicate DisabledBy(requests: set<Entry>) {
    exists d :: d in requests && d.state == Disable && BeatsAll(d, requests)
  }

  ghost predicate BeatsAll(d: Entry, requests: set<Entry>) {
    forall e :: e in requests && e.state != Unassigned ==> d.priority <= e.priority
  }

  /** `w` beats every assigned entry of the table; Disable wins ties. */
  ghost predicate Wins(w: Entry, table: seq<Entry>) {
    forall e :: e in table && e.state != Unassigned ==>
      w.priority <= e.priority && (w.priority == e.priority && e.state == Disable ==> w.state == Disable)
  }

  /** Decides from the table (parse_enable_disable_source_table): the decision and the winning entry. */
  method ParseTable(table: seq<Entry>) returns (isEnabled: bool, winner: Entry)
    ensures isEnabled <==> !DisabledBy(Requests(table))
    ensures isEnabled <==> winner.state != Disable
    ensures winner == DEFAULT_ENTRY || winner in table
    ensures winner.state == Unassigned <==> forall e :: e in table ==> e.state == Unassigned
    ensures winner.state != Unassigned ==> Wins(winner, table)
  {
    isEnabled := true;
    winner := DEFAULT_ENTRY;
    var n := 0;
    while n < |table|
      invariant 0 <= n <= |table|
      invariant isEnabled <==> winner.state != Disable
      invariant winner == DEFAULT_ENTRY || winner in table[..n]
      invariant winner.state == Unassigned <==> forall e :: e in table[..n] ==> e.state == Unassigned
      invariant winner.state != Unassigned ==> Wins(winner, table[..n])
    {
      var entry := table[n];
      assert table[..n + 1] == table[..n] + [entry];
      if entry.state == Unassigned {
        // ignored
      } else if winner.state == Unassigned {
        winner := entry;
        isEnabled := entry.state != Disable;
      } else if entry.priority == winner.priority {
        if entry.state == Disable {
          isEnabled := false;
          winner := entry;
        }
      } else if entry.priority < winner.priority {
        winner := entry;
        isEnabled := entry.state != Disable;
      }
      n := n + 1;
    }
    assert table[..n] == table;
    DecisionMeaning(table, winner);
  }

  lemma DecisionMeaning(table: seq<Entry>, winner: Entry)
    requires winner == DEFAULT_ENTRY || winner in table
    requires winner.state == Unassigned <==> forall e :: e in table ==> e.state == Unassigned
    requires winner.state != Unassigned ==> Wins(winner, table)
    ensures winner.state == Disable <==> DisabledBy(Requests(table))
  {
  }

  /** Two tables holding the same requests in any order are decided the same way. */
  lemma OrderIrrelevant(t1: seq<Entry>, t2: seq<Entry>)
    requires multiset(t1) == multiset(t2)
    ensures DisabledBy(Requests(t1)) <==> DisabledBy(Requests(t2))
  {
    forall e ensures e in t1 <==> e in t2 {
      assert e in multiset(t1) <==> e in multiset(t2);
    }
    assert Requests(t1) == Requests(t2);
  }
}
