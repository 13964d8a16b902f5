/** What a whole replacement means for the stored vectors. */
module GenerationReplacement {
  import opened Wrappers
  import opened Identifiers
  import opened VectorTable
  import opened TenantVectorRepository

  /** The rows the prepared records ask for. */
  ghost function PreparedRows(g: Generation, ps: seq<Prepared>): Table
    requires Distinct(ps)
  {
    map k | k in KeysOf(g, ps) :: RowFor(g, ps, k)
  }

  ghost function RowFor(g: Generation, ps: seq<Prepared>, k: Key): Row
    requires Distinct(ps) && k in KeysOf(g, ps)
  {
    var p :| p in ps && KeyOf(g, p) == k;
    NewRow(g, p)
  }

  /** Rows that already carry the job's id are all among the prepared ones; a fresh job satisfies this. */
  ghost predicate NoLeftovers(table: Table, g: Generation, ps: seq<Prepared>) {
    forall k :: OfVersion(table, g, k) && table[k].job == Some(g.job) ==> k.chunkId in IdsOf(ps)
  }

  ghost predicate FreshJob(table: Table, g: Generation) {
    forall k :: OfVersion(table, g, k) ==> table[k].job != Some(g.job)
  }

  lemma UpsertedHolds(table: Table, g: Generation, ps: seq<Prepared>)
    requires Distinct(ps) && !AnyConflict(table, g, ps)
    ensures Holds(Upserted(table, g, ps), g, ps)
  {
    UpsertedAt(table, g, ps);
    forall p | p in ps
      ensures KeyOf(g, p) in Upserted(table, g, ps)
      ensures Upserted(table, g, ps)[KeyOf(g, p)] == NewRow(g, p)
    {
      var i :| 0 <= i < |ps| && ps[i] == p;
      assert !Conflicts(table, g, p);
    }
  }

  /** The table after a replacement, key by key. */
  lemma ReplacedAt(table: Table, g: Generation, ps: seq<Prepared>)
    requires Distinct(ps) && !AnyConflict(table, g, ps)
    ensures Holds(Replaced(table, g, ps), g, ps)
    ensures forall k :: k !in KeysOf(g, ps) ==>
      && (k in Replaced(table, g, ps) <==> k in table && !Stale(table, g, k))
      && (k in Replaced(table, g, ps) ==> Replaced(table, g, ps)[k] == table[k])
  {
    UpsertedHolds(table, g, ps);
    UpsertedAt(table, g, ps);
    forall k | k !in KeysOf(g, ps)
      ensures k in Replaced(table, g, ps) <==> k in table && !Stale(table, g, k)
      ensures k in Replaced(table, g, ps) ==> Replaced(table, g, ps)[k] == table[k]
    {
      assert k.tenant == g.tenant && k.chunkId in IdsOf(ps) ==> k in KeysOf(g, ps);
    }
  }

  lemma PreparedRowsAt(g: Generation, ps: seq<Prepared>, p: Prepared)
    requires Distinct(ps) && p in ps
    ensures KeyOf(g, p) in PreparedRows(g, ps) && PreparedRows(g, ps)[KeyOf(g, p)] == NewRow(g, p)
  {
    assert KeyOf(g, p) in KeysOf(g, ps);
    var q :| q in ps && KeyOf(g, q) == KeyOf(g, p) && RowFor(g, ps, KeyOf(g, p)) == NewRow(g, q);
  }

  /**
    After a replacement the version's rows are exactly the prepared records if
    and only if no row of the version already carried the job's id outside them.
  */
  lemma ReplacementIsExactIff(table: Table, g: Generation, ps: seq<Prepared>)
    requires Distinct(ps) && !AnyConflict(table, g, ps)
    ensures VersionRows(Replaced(table, g, ps), g) == PreparedRows(g, ps) <==> NoLeftovers(table, g, ps)
  {
    ReplacedAt(table, g, ps);
    var after := Replaced(table, g, ps);
    forall k | k in KeysOf(g, ps)
      ensures OfVersion(after, g, k) && k in PreparedRows(g, ps) && after[k] == PreparedRows(g, ps)[k]
    {
      var p :| p in ps && KeyOf(g, p) == k;
      PreparedRowsAt(g, ps, p);
    }
    if NoLeftovers(table, g, ps) {
      forall k | OfVersion(after, g, k)
        ensures k in KeysOf(g, ps)
      {
        assert k.tenant == g.tenant && k.chunkId in IdsOf(ps) ==> k in KeysOf(g, ps);
      }
    } else {
      var k :| OfVersion(table, g, k) && table[k].job == Some(g.job) && k.chunkId !in IdsOf(ps);
      assert k !in KeysOf(g, ps) && k in VersionRows(after, g);
    }
  }

  /** Rows of other tenants, versions and contracts stay as they are, and nothing else appears. */
  lemma OthersAreUntouched(table: Table, g: Generation, ps: seq<Prepared>, k: Key)
    requires Distinct(ps) && !AnyConflict(table, g, ps)
    requires k.tenant != g.tenant || (k in table && !InVersion(g, table[k]))
    ensures k in Replaced(table, g, ps) <==> k in table
    ensures k in table ==> Replaced(table, g, ps)[k] == table[k]
  {
    ReplacedAt(table, g, ps);
    forall p | p in ps
      ensures KeyOf(g, p) != k
    {
      assert !Conflicts(table, g, p);
    }
  }

  lemma {:induction false} InsertedAreNew(table: Table, g: Generation, ps: seq<Prepared>)
    requires Distinct(ps)
    ensures |Upserted(table, g, ps)| == |table| + Totals(Counts(0, 0, 0), table, g, ps).inserted
  {
    if ps != [] {
      var init, last := ps[..|ps| - 1], ps[|ps| - 1];
      InsertedAreNew(table, g, init);
      UpsertedAt(table, g, init);
      assert last.chunkId !in IdsOf(init);
    }
  }

  lemma MapLoses<K, V>(m: map<K, V>, gone: set<K>)
    requires gone <= m.Keys
    ensures |m - gone| == |m| - |gone|
  {
    assert (m - gone).Keys == m.Keys - gone;
    assert |(m - gone).Keys| == |m.Keys| - |gone|;
  }

  /** The number of rows changes by what is inserted less what is deleted. */
  lemma {:induction false} RowsAreAccountedFor(table: Table, g: Generation, ps: seq<Prepared>)
    requires Distinct(ps) && !AnyRefused(table, g, ps)
    ensures var r := Outcome(table, g, ps);
      r.Ok? && |Replaced(table, g, ps)| + r.value.deleted == |table| + r.value.counts.inserted
  {
    NoneRefusedNoConflict(table, g, ps);
    InsertedAreNew(table, g, ps);
    var middle := Upserted(table, g, ps);
    MapLoses(middle, StaleKeys(middle, g));
  }

  lemma {:induction false} SettledChangesNothing(c: Counts, table: Table, g: Generation, ps: seq<Prepared>)
    requires Holds(table, g, ps)
    ensures Upserted(table, g, ps) == table
    ensures Totals(c, table, g, ps) == c.(unaltered := c.unaltered + |ps|)
    decreases ps
  {
    if ps != [] {
      SettledChangesNothing(c, table, g, ps[..|ps| - 1]);
      assert ps[|ps| - 1] in ps;
    }
  }

  /** After a replacement the same rows once more change nothing. */
  lemma ReplacedIsSettled(table: Table, g: Generation, ps: seq<Prepared>)
    requires Distinct(ps) && !AnyConflict(table, g, ps)
    ensures var after := Replaced(table, g, ps);
      && Holds(after, g, ps) && !AnyConflict(after, g, ps) && StaleKeys(after, g) == {}
      && Replaced(after, g, ps) == after
      && Totals(Counts(0, 0, 0), after, g, ps) == Counts(0, 0, |ps|)
  {
    ReplacedAt(table, g, ps);
    var after := Replaced(table, g, ps);
    assert Holds(after, g, ps);
    forall p | p in ps
      ensures !Conflicts(after, g, p)
    {
    }
    SettledChangesNothing(Counts(0, 0, 0), after, g, ps);
    assert StaleKeys(after, g) == {} by {
      forall k | k in after
        ensures !Stale(after, g, k)
      {
        if k in KeysOf(g, ps) {
          var p :| p in ps && KeyOf(g, p) == k;
        }
      }
    }
  }

  /**
    The same call again leaves the table alone; it reports every record unchanged
    and deletes nothing exactly when the caller names the version in lower case,
    as the database does. Under any other spelling the rows it wrote itself pass
    for another version's, and it fails.
  */
  lemma RepeatingIsANoOpIff(table: Table, g: Generation, ps: seq<Prepared>)
    requires Distinct(ps) && !AnyConflict(table, g, ps) && ps != []
    ensures var after := Replaced(table, g, ps);
      && Replaced(after, g, ps) == after
      && (Outcome(after, g, ps) == Ok(ReplaceResult(Counts(0, 0, |ps|), 0)) <==> IsLower(g.named))
      && (Outcome(after, g, ps) == Err(ChunkIdentityConflict) <==> !IsLower(g.named))
  {
    hide Replaced, Totals, AnyConflict, AnyRefused;
    ReplacedIsSettled(table, g, ps);
    var after := Replaced(table, g, ps);
    assert ps[0] in ps && KeyOf(g, ps[0]) in after;
    NoneRefusedNoConflict(after, g, ps);
    SettledChangesNothing(Counts(0, 0, 0), after, g, ps);
  }

  /**
    A second call under the same job with other records is exact if and only if
    every id of the first call comes again in the second and nothing else was left
    over before: rows of the first call that do not come again carry the job's id,
    so the stale delete passes over them.
  */
  lemma SecondCallIsExactIff(table: Table, g: Generation, ps: seq<Prepared>, qs: seq<Prepared>)
    requires Distinct(ps) && !AnyConflict(table, g, ps)
    requires Distinct(qs) && !AnyConflict(table, g, qs)
    ensures var after := Replaced(table, g, ps);
      && !AnyConflict(after, g, qs)
      && (VersionRows(Replaced(after, g, qs), g) == PreparedRows(g, qs)
          <==> IdsOf(ps) <= IdsOf(qs) && NoLeftovers(table, g, qs))
  {
    hide Replaced, PreparedRows;
    var after := Replaced(table, g, ps);
    ReplacedAt(table, g, ps);
    SecondMeetsNoConflict(table, after, g, ps, qs);
    ReplacementIsExactIff(after, g, qs);
    LeftoversAfter(table, after, g, ps, qs);
  }

  lemma SecondMeetsNoConflict(table: Table, after: Table, g: Generation, ps: seq<Prepared>, qs: seq<Prepared>)
    requires Holds(after, g, ps) && !AnyConflict(table, g, qs)
    requires forall k :: k !in KeysOf(g, ps) && k in after ==> k in table && after[k] == table[k]
    ensures !AnyConflict(after, g, qs)
  {
    forall q | q in qs
      ensures !Conflicts(after, g, q)
    {
      assert !Conflicts(table, g, q);
      if KeyOf(g, q) in KeysOf(g, ps) {
        var p :| p in ps && KeyOf(g, p) == KeyOf(g, q);
      }
    }
  }

  lemma LeftoversAfter(table: Table, after: Table, g: Generation, ps: seq<Prepared>, qs: seq<Prepared>)
    requires Holds(after, g, ps)
    requires forall k :: k !in KeysOf(g, ps) ==>
      && (k in after <==> k in table && !Stale(table, g, k))
      && (k in after ==> after[k] == table[k])
    ensures NoLeftovers(after, g, qs) <==> IdsOf(ps) <= IdsOf(qs) && NoLeftovers(table, g, qs)
  {
    if NoLeftovers(after, g, qs) {
      forall p | p in ps
        ensures p.chunkId in IdsOf(qs)
      {
        assert OfVersion(after, g, KeyOf(g, p)) && after[KeyOf(g, p)].job == Some(g.job);
      }
      forall k | OfVersion(table, g, k) && table[k].job == Some(g.job)
        ensures k.chunkId in IdsOf(qs)
      {
        if k in KeysOf(g, ps) {
          var p :| p in ps && KeyOf(g, p) == k;
        } else {
          assert OfVersion(after, g, k);
        }
      }
    }
    if IdsOf(ps) <= IdsOf(qs) && NoLeftovers(table, g, qs) {
      forall k | OfVersion(after, g, k) && after[k].job == Some(g.job)
        ensures k.chunkId in IdsOf(qs)
      {
        if k in KeysOf(g, ps) {
          var p :| p in ps && KeyOf(g, p) == k;
          assert p.chunkId in IdsOf(ps);
        }
      }
    }
  }

  /** Only the last of two generations of a version can be seen in the table. */
  lemma LastGenerationWins(table: Table, first: Generation, second: Generation, ps: seq<Prepared>, qs: seq<Prepared>)
    requires first.tenant == second.tenant && first.Version() == second.Version() && first.job != second.job
    requires FreshJob(table, second)
    requires Distinct(ps) && !AnyConflict(table, first, ps)
    requires Distinct(qs) && !AnyConflict(table, second, qs)
    ensures !AnyConflict(Replaced(table, first, ps), second, qs)
    ensures Replaced(Replaced(table, first, ps), second, qs) == Replaced(table, second, qs)
  {
    var between := Replaced(table, first, ps);
    ReplacedAt(table, first, ps);
    ReplacedAt(table, second, qs);
    forall q | q in qs
      ensures !Conflicts(between, second, q)
    {
      assert !Conflicts(table, second, q);
      if KeyOf(first, q) in KeysOf(first, ps) {
        var p :| p in ps && KeyOf(first, p) == KeyOf(first, q);
      }
    }
    ReplacedAt(between, second, qs);
    var left, right := Replaced(between, second, qs), Replaced(table, second, qs);
    forall k
      ensures k in left <==> k in right
      ensures k in left ==> left[k] == right[k]
    {
      if k in KeysOf(second, qs) {
        var q :| q in qs && KeyOf(second, q) == k;
      } else if k in KeysOf(first, ps) {
        var p :| p in ps && KeyOf(first, p) == k;
        assert Stale(between, second, k);
        assert !Conflicts(table, first, p);
      } else {
        assert k in between <==> k in table && !Stale(table, first, k);
        assert k in table && Stale(table, first, k) ==> Stale(table, second, k);
      }
    }
  }
}
