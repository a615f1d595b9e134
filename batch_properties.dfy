/** Properties of feeding a sequence of rows to the converters: the target
    only grows, stays consistent, and re-feeding rows that were already
    converted is harmless.  This is what makes re-runs idempotent and makes a
    crashed run recoverable by running again. */
module BatchProperties {
  import opened Wrappers
  import opened MigrationSchema
  import opened MigrationSpec
  import ConversionProperties

  // ----- composition -----

  /** Feeding `p + q` is feeding `p` and then, unless that escaped, `q`. */
  lemma {:induction false} ConvertAllAppend(db: Db, p: seq<SourceRow>, q: seq<SourceRow>, f: Oracle)
    ensures var s := ConvertAll(db, p, f);
      ConvertAll(db, p + q, f) == if s.halted then s else ConvertAll(s.db, q, f)
    decreases |p|
  {
    if p == [] {
      assert p + q == q;
    } else {
      assert (p + q)[0] == p[0];
      assert (p + q)[1..] == p[1..] + q;
      var s := Convert(db, p[0], f(AtRow(p[0])));
      if !s.halted {
        ConvertAllAppend(s.db, p[1..], q, f);
      }
    }
  }

  /** Feeding one more row: the step the table loops take. */
  lemma ConvertAllSnoc(db: Db, rows: seq<SourceRow>, row: SourceRow, f: Oracle)
    requires !ConvertAll(db, rows, f).halted
    ensures ConvertAll(db, rows + [row], f) == Convert(ConvertAll(db, rows, f).db, row, f(AtRow(row)))
  {
    ConvertAllAppend(db, rows, [row], f);
    var s := ConvertAll(db, rows, f).db;
    assert ConvertAll(s, [row], f) == Convert(s, row, f(AtRow(row))) by {
      var c := Convert(s, row, f(AtRow(row)));
      if !c.halted {
        assert [row][1..] == [];
      }
    }
  }

  /** A batch only adds to the target; when it escapes, what the earlier rows
      wrote stays (there is no table-level rollback). */
  lemma {:induction false} ConvertAllExtends(db: Db, rows: seq<SourceRow>, f: Oracle)
    ensures Extends(db, ConvertAll(db, rows, f).db)
    ensures !db.hasMappingTable && rows != [] ==> ConvertAll(db, rows, f) == Step(db, true)
    decreases |rows|
  {
    if rows != [] {
      var s := Convert(db, rows[0], f(AtRow(rows[0])));
      ConversionProperties.ConvertExtends(db, rows[0], f(AtRow(rows[0])));
      if !s.halted {
        ConvertAllExtends(s.db, rows[1..], f);
        ExtendsTransitive(db, s.db, ConvertAll(s.db, rows[1..], f).db);
      }
    }
  }

  /** A batch keeps the target consistent. */
  lemma {:induction false} ConvertAllPreservesConsistent(db: Db, rows: seq<SourceRow>, f: Oracle)
    requires Consistent(db)
    ensures Consistent(ConvertAll(db, rows, f).db)
    decreases |rows|
  {
    if rows != [] {
      var s := Convert(db, rows[0], f(AtRow(rows[0])));
      ConversionProperties.ConvertPreservesConsistent(db, rows[0], f(AtRow(rows[0])));
      if !s.halted {
        ConvertAllPreservesConsistent(s.db, rows[1..], f);
      }
    }
  }

  // ----- settled rows -----

  /** A row is settled when converting it again would write nothing: it is
      mapped, or (a CaseTag) its resolved pair is already in the join table or
      cannot be resolved yet. */
  ghost predicate Settled(db: Db, row: SourceRow) {
    match row
    case CaseTagRow(ct) =>
      var c := Lookup(db, CaseTable, Some(ct.caseId));
      var t := Lookup(db, TagTable, Some(ct.tagId));
      c.Some? && t.Some? ==> (c.value, t.value) in db.caseTags
    case _ => row.Key() in db.mappings
  }

  ghost predicate AllSettled(db: Db, rows: seq<SourceRow>) {
    forall i :: 0 <= i < |rows| ==> Settled(db, rows[i])
  }

  /** All rows come from the source table `t`. */
  ghost predicate SameTable(rows: seq<SourceRow>, t: Table) {
    forall i :: 0 <= i < |rows| ==> rows[i].TableOf() == t
  }

  /** Converting a settled row changes nothing, whatever the oracle says. */
  lemma SettledRowIsNoop(db: Db, row: SourceRow, fault: Fault)
    requires db.hasMappingTable && Settled(db, row)
    ensures Convert(db, row, fault) == Step(db, fault == FatalFault)
  {
    if row.CaseTagRow? && fault != FatalFault {
      var c := Lookup(db, CaseTable, Some(row.caseTag.caseId));
      var t := Lookup(db, TagTable, Some(row.caseTag.tagId));
      if c.Some? && t.Some? && fault == NoFault {
        assert db.caseTags + {(c.value, t.value)} == db.caseTags;
      }
    }
  }

  /** A conversion that succeeds leaves its row settled. */
  lemma ConvertSettles(db: Db, row: SourceRow)
    requires db.hasMappingTable
    ensures Settled(Convert(db, row, NoFault).db, row)
  {
  }

  /** Later conversions keep a row settled: mappings are never removed, and
      while CaseTags are converted the Case and Tag mappings do not change. */
  lemma SettledStable(db: Db, row: SourceRow, other: SourceRow, fault: Fault)
    requires Settled(db, row)
    requires !row.CaseTagRow? || other.CaseTagRow?
    ensures Settled(Convert(db, other, fault).db, row)
  {
    ConversionProperties.ConvertExtends(db, other, fault);
  }

  lemma {:induction false} SettledStableAll(db: Db, row: SourceRow, rows: seq<SourceRow>, f: Oracle)
    requires Settled(db, row)
    requires !row.CaseTagRow? || SameTable(rows, CaseTagTable)
    ensures Settled(ConvertAll(db, rows, f).db, row)
    decreases |rows|
  {
    if rows != [] {
      assert rows[0].TableOf() == CaseTagTable ==> rows[0].CaseTagRow?;
      SettledStable(db, row, rows[0], f(AtRow(rows[0])));
      var s := Convert(db, rows[0], f(AtRow(rows[0])));
      if !s.halted {
        SettledStableAll(s.db, row, rows[1..], f);
      }
    }
  }

  /** Feeding a batch of settled rows changes nothing, whatever the oracle. */
  lemma {:induction false} SettledBatchIsNoop(db: Db, rows: seq<SourceRow>, f: Oracle)
    requires db.hasMappingTable && AllSettled(db, rows)
    ensures ConvertAll(db, rows, f).db == db
    ensures (forall i :: 0 <= i < |rows| ==> f(AtRow(rows[i])) != FatalFault) ==> !ConvertAll(db, rows, f).halted
    decreases |rows|
  {
    if rows != [] {
      assert Settled(db, rows[0]);
      SettledRowIsNoop(db, rows[0], f(AtRow(rows[0])));
      assert AllSettled(db, rows[1..]) by {
        forall i | 0 <= i < |rows[1..]| ensures Settled(db, rows[1..][i]) {
          assert rows[1..][i] == rows[i + 1];
        }
      }
      SettledBatchIsNoop(db, rows[1..], f);
      assert (forall i :: 0 <= i < |rows| ==> f(AtRow(rows[i])) != FatalFault) ==>
             (forall i :: 0 <= i < |rows[1..]| ==> f(AtRow(rows[1..][i])) != FatalFault) by {
        forall i | 0 <= i < |rows[1..]| ensures rows[1..][i] == rows[i + 1] { }
      }
    }
  }

  /** A batch from one table run without failures leaves every one of its
      rows settled. */
  lemma {:induction false} ConvertAllSettles(db: Db, rows: seq<SourceRow>, t: Table)
    requires db.hasMappingTable && SameTable(rows, t)
    ensures !ConvertAll(db, rows, NoFaults).halted
    ensures AllSettled(ConvertAll(db, rows, NoFaults).db, rows)
    decreases |rows|
  {
    if rows != [] {
      var s := Convert(db, rows[0], NoFault);
      ConvertSettles(db, rows[0]);
      ConversionProperties.ConvertExtends(db, rows[0], NoFault);
      assert SameTable(rows[1..], t) by {
        forall i | 0 <= i < |rows[1..]| ensures rows[1..][i].TableOf() == t {
          assert rows[1..][i] == rows[i + 1];
        }
      }
      ConvertAllSettles(s.db, rows[1..], t);
      var end := ConvertAll(s.db, rows[1..], NoFaults).db;
      assert rows[0].CaseTagRow? ==> SameTable(rows[1..], CaseTagTable) by {
        if rows[0].CaseTagRow? {
          assert t == CaseTagTable;
        }
      }
      SettledStableAll(s.db, rows[0], rows[1..], NoFaults);
      forall i | 0 <= i < |rows| ensures Settled(end, rows[i]) {
        if i > 0 {
          assert rows[i] == rows[1..][i - 1];
        }
      }
    }
  }

  /** Re-feeding rows that were already fed, in order, before feeding the
      rest gives the same target as feeding everything once: the rows of a
      chunk that did get converted before a crash are skipped on re-run. */
  lemma Replay(db: Db, p: seq<SourceRow>, q: seq<SourceRow>, t: Table)
    requires db.hasMappingTable && SameTable(p + q, t)
    ensures ConvertAll(ConvertAll(db, p, NoFaults).db, p + q, NoFaults) == ConvertAll(db, p + q, NoFaults)
  {
    assert SameTable(p, t) by {
      forall i | 0 <= i < |p| ensures p[i].TableOf() == t {
        assert p[i] == (p + q)[i];
      }
    }
    var d := ConvertAll(db, p, NoFaults).db;
    ConvertAllSettles(db, p, t);
    ConvertAllExtends(db, p, NoFaults);
    ConvertAllAppend(d, p, q, NoFaults);
    SettledBatchIsNoop(d, p, NoFaults);
    ConvertAllAppend(db, p, q, NoFaults);
  }

  // ----- crashes -----

  /** The position of the first row whose conversion throws outside its
      transaction, or |rows| when none does. */
  function HaltIndex(rows: seq<SourceRow>, f: Oracle): (k: nat)
    ensures k <= |rows|
    ensures forall i :: 0 <= i < k ==> f(AtRow(rows[i])) != FatalFault
    ensures k < |rows| ==> f(AtRow(rows[k])) == FatalFault
  {
    if rows == [] then 0
    else if f(AtRow(rows[0])) == FatalFault then 0
    else
      var k := HaltIndex(rows[1..], f);
      assert forall i :: 1 <= i < k + 1 ==> rows[i] == rows[1..][i - 1];
      1 + k
  }

  /** Under crashes only, a batch does what the failure-free batch does on
      the rows before the crash, and nothing more. */
  lemma {:induction false} CrashedBatch(db: Db, rows: seq<SourceRow>, f: Oracle)
    requires db.hasMappingTable && CrashOnly(f)
    ensures var k := HaltIndex(rows, f);
      ConvertAll(db, rows, f) == Step(ConvertAll(db, rows[..k], NoFaults).db, k < |rows|)
    ensures HaltIndex(rows, f) == |rows| ==> ConvertAll(db, rows, f) == ConvertAll(db, rows, NoFaults)
    decreases |rows|
  {
    var k := HaltIndex(rows, f);
    if rows == [] {
    } else if f(AtRow(rows[0])) == FatalFault {
      assert rows[..k] == [];
    } else {
      assert f(AtRow(rows[0])) == NoFault;
      var s := Convert(db, rows[0], NoFault);
      ConversionProperties.ConvertExtends(db, rows[0], NoFault);
      assert ConvertAll(db, rows, f) == ConvertAll(s.db, rows[1..], f);
      var k' := HaltIndex(rows[1..], f);
      assert k == k' + 1;
      CrashedBatch(s.db, rows[1..], f);
      assert rows[..k][0] == rows[0];
      assert rows[..k][1..] == rows[1..][..k'];
      assert ConvertAll(db, rows[..k], NoFaults) == ConvertAll(s.db, rows[1..][..k'], NoFaults);
      assert rows[..|rows|] == rows;
    }
  }
}
