// Sequence values are handed out once: no primary key of transfers or entries is ever violated, in any interleaving.
module Keys {
  import opened Bank
  import opened Protocol

  datatype Table = TransferTable | EntryTable

  function Ids(rows: Tables, table: Table): (ids: seq<int>)
    ensures |ids| == if table.TransferTable? then |rows.transfers| else |rows.entries|
  {
    match table
    case TransferTable => seq(|rows.transfers|, i requires 0 <= i < |rows.transfers| => rows.transfers[i].id)
    case EntryTable => seq(|rows.entries|, i requires 0 <= i < |rows.entries| => rows.entries[i].id)
  }

  /** The ids at owner `o`: the committed ones at -1, otherwise the uncommitted ones of running transaction `o`. */
  function IdsAt(s: State, table: Table, o: int): seq<int> {
    if o == -1 then Ids(s.db, table)
    else if 0 <= o && IsRunning(s, o) then Ids(s.txs[o].work.writes, table)
    else []
  }

  function Next(s: State, table: Table): int {
    if table.TransferTable? then s.nextTransfer else s.nextEntry
  }

  /** Every id in the table or about to enter it is below the sequence, and no two are equal. */
  ghost predicate IdsUnique(s: State, table: Table) {
    && (forall o, i | 0 <= i < |IdsAt(s, table, o)| :: IdsAt(s, table, o)[i] < Next(s, table))
    && (forall o, i, p, j | 0 <= i < |IdsAt(s, table, o)| && 0 <= j < |IdsAt(s, table, p)| && (o != p || i != j) ::
          IdsAt(s, table, o)[i] != IdsAt(s, table, p)[j])
  }

  /** Where an id of the state after a commit by `tid` was before. */
  function Before(s: State, table: Table, tid: int, o: int, i: int): (int, int) {
    var n := |IdsAt(s, table, -1)|;
    if o == -1 && i >= n then (tid, i - n) else (o, i)
  }

  lemma CommitMoves(s: State, table: Table, tid: nat, o: int, i: int)
    requires Enabled(s, Commit(tid)) && 0 <= i < |IdsAt(Apply(s, Commit(tid)), table, o)|
    ensures var (p, j) := Before(s, table, tid, o, i);
            && 0 <= j < |IdsAt(s, table, p)|
            && IdsAt(Apply(s, Commit(tid)), table, o)[i] == IdsAt(s, table, p)[j]
            && o != tid
  {
    assert Ids(Merge(s.db, s.txs[tid].work.writes), table) == Ids(s.db, table) + Ids(s.txs[tid].work.writes, table);
  }

  lemma CommitKeeps(s: State, table: Table, tid: nat)
    requires IdsUnique(s, table) && Enabled(s, Commit(tid))
    ensures IdsUnique(Apply(s, Commit(tid)), table)
  {
    var s' := Apply(s, Commit(tid));
    forall o, i | 0 <= i < |IdsAt(s', table, o)|
      ensures IdsAt(s', table, o)[i] < Next(s', table)
    {
      CommitMoves(s, table, tid, o, i);
    }
    forall o, i, p, j | 0 <= i < |IdsAt(s', table, o)| && 0 <= j < |IdsAt(s', table, p)| && (o != p || i != j)
      ensures IdsAt(s', table, o)[i] != IdsAt(s', table, p)[j]
    {
      CommitMoves(s, table, tid, o, i);
      CommitMoves(s, table, tid, p, j);
      assert Before(s, table, tid, o, i) != Before(s, table, tid, p, j);
    }
  }

  /** A statement adds at most the next sequence value, and then moves the sequence on. */
  lemma ExecAdds(s: State, table: Table, tid: nat, o: int)
    requires Enabled(s, Exec(tid))
    ensures var s' := Apply(s, Exec(tid));
            || (IdsAt(s', table, o) == IdsAt(s, table, o) && Next(s', table) >= Next(s, table))
            || (o == tid && IdsAt(s', table, o) == IdsAt(s, table, o) + [Next(s, table)] &&
                Next(s', table) == Next(s, table) + 1)
  {
    var s' := Apply(s, Exec(tid));
    if o == tid {
      var w, w' := s.txs[tid].work.writes, s'.txs[tid].work.writes;
      assert NextOp(s, tid).InsertTransfer? ==> Ids(w', TransferTable) == Ids(w, TransferTable) + [s.nextTransfer];
      assert NextOp(s, tid).InsertEntry? ==> Ids(w', EntryTable) == Ids(w, EntryTable) + [s.nextEntry];
    }
  }

  /** Owner `o` has what it had, or nothing, or is `tid` and has one new id from the sequence. */
  ghost predicate FreshOnly(s: State, s': State, table: Table, tid: int, o: int) {
    || IdsAt(s', table, o) == IdsAt(s, table, o)
    || IdsAt(s', table, o) == []
    || (o == tid && IdsAt(s', table, o) == IdsAt(s, table, o) + [Next(s, table)] && Next(s', table) > Next(s, table))
  }

  lemma FreshKeeps(s: State, s': State, table: Table, tid: int)
    requires IdsUnique(s, table) && Next(s', table) >= Next(s, table)
    requires forall o :: FreshOnly(s, s', table, tid, o)
    ensures IdsUnique(s', table)
  {
    forall o, i | 0 <= i < |IdsAt(s', table, o)|
      ensures IdsAt(s', table, o)[i] < Next(s', table)
      ensures i < |IdsAt(s, table, o)| ==> IdsAt(s', table, o)[i] == IdsAt(s, table, o)[i]
      ensures i >= |IdsAt(s, table, o)| ==>
                o == tid && i == |IdsAt(s, table, o)| && IdsAt(s', table, o)[i] == Next(s, table)
    {
      assert FreshOnly(s, s', table, tid, o);
    }
  }

  lemma KeysStep(s: State, table: Table, a: Action)
    requires IdsUnique(s, table) && Enabled(s, a)
    ensures IdsUnique(Apply(s, a), table)
  {
    match a {
      case Commit(tid) => CommitKeeps(s, table, tid);
      case Exec(tid) =>
        forall o
          ensures FreshOnly(s, Apply(s, a), table, tid, o)
        {
          ExecAdds(s, table, tid, o);
        }
        ExecAdds(s, table, tid, tid);
        FreshKeeps(s, Apply(s, a), table, tid);
      case _ =>
        forall o
          ensures FreshOnly(s, Apply(s, a), table, -1, o)
        {
        }
        FreshKeeps(s, Apply(s, a), table, -1);
    }
  }

  lemma {:induction false} KeysRun(s: State, table: Table, run: seq<Action>)
    requires IdsUnique(s, table) && ValidRun(s, run)
    ensures IdsUnique(Final(s, run), table)
    decreases |run|
  {
    if run != [] {
      KeysStep(s, table, run[0]);
      KeysRun(Apply(s, run[0]), table, run[1..]);
    }
  }

  /** In every reachable state the ids of the committed transfers are distinct, and so are those of the entries. */
  lemma KeysUnique(s: State, table: Table, run: seq<Action>)
    requires Initial(s) && s.db.transfers == [] && s.db.entries == [] && ValidRun(s, run)
    ensures var ids := Ids(Final(s, run).db, table); forall i, j | 0 <= i < j < |ids| :: ids[i] != ids[j]
  {
    KeysRun(s, table, run);
    assert IdsAt(Final(s, run), table, -1) == Ids(Final(s, run).db, table);
  }
}
