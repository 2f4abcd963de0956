/** What every promotion guarantees, for all batches, rows, targets and ledgers. */
module PlannerTheorems {
  import opened Basics
  import opened JsText
  import opened TxIdentity
  import opened PromotionSpec
  import Utf16Order

  ghost predicate Runs(hash: Hash, input: PlanInput, n: nat) {
    n <= |input.observations| && Run(hash, input, n).Ok?
  }

  ghost function At(hash: Hash, input: PlanInput, n: nat): PlanState
    requires Runs(hash, input, n)
  {
    Run(hash, input, n).value
  }

  /** The decision a run takes on its observation i. */
  ghost function DecisionAt(hash: Hash, input: PlanInput, i: nat): Decision
    requires i < |input.observations| && Runs(hash, input, i)
  {
    Decide(hash, input, At(hash, input, i), i)
  }

  lemma {:induction false} Step(hash: Hash, input: PlanInput, n: nat)
    requires n > 0 && Runs(hash, input, n)
    ensures Runs(hash, input, n - 1)
    ensures !DecisionAt(hash, input, n - 1).Fails?
    ensures Ok(At(hash, input, n)) == Apply(input, At(hash, input, n - 1), input.observations[n - 1], DecisionAt(hash, input, n - 1))
  {
  }

  lemma {:induction false} Prefix(hash: Hash, input: PlanInput, m: nat, n: nat)
    requires m <= n && Runs(hash, input, n)
    ensures Runs(hash, input, m)
    decreases n
  {
    if m < n {
      Step(hash, input, n);
      Prefix(hash, input, m, n - 1);
    }
  }

  // --------------------------------------------------------- conservation

  ghost function ReplayCount(hash: Hash, input: PlanInput, n: nat): nat
    requires Runs(hash, input, n)
  {
    if n == 0 then 0
    else
      Step(hash, input, n);
      ReplayCount(hash, input, n - 1) + if DecisionAt(hash, input, n - 1).Replayed? then 1 else 0
  }

  /** Rows are the input's and the additions. */
  ghost predicate RowsBalance(input: PlanInput, st: PlanState) {
    |st.rows| == |input.rows| + st.added
  }

  /** Every observation counts once, as dropped or as one of the three ways of storing. */
  ghost predicate CountsBalance(st: PlanState, n: nat, replayed: nat) {
    st.stored + st.dropped == n && st.added + st.modified + replayed == st.stored
  }

  lemma {:induction false} RowsBalanceKept(input: PlanInput, st: PlanState, o: Observation, d: Decision)
    requires RowsBalance(input, st) && Apply(input, st, o, d).Ok?
    ensures RowsBalance(input, Apply(input, st, o, d).value)
  {
    if d.Written? {
      RowsAfterWrite(st.rows, d.txId, Merge(Lookup(st.rows, d.txId), o, d.canonicalId));
    }
  }

  lemma {:induction false} CountsBalanceKept(input: PlanInput, st: PlanState, o: Observation, d: Decision, n: nat, replayed: nat)
    requires CountsBalance(st, n, replayed) && Apply(input, st, o, d).Ok?
    ensures CountsBalance(Apply(input, st, o, d).value, n + 1, replayed + if d.Replayed? then 1 else 0)
  {
  }

  /** A run whose decisions are given instead of computed. */
  ghost function RunWith(input: PlanInput, ds: seq<Decision>): Result<PlanState, PlanError>
    requires |ds| <= |input.observations|
  {
    if ds == [] then Ok(Initial(input))
    else
      var n := |ds| - 1;
      var before := RunWith(input, ds[..n]);
      if before.Err? then before else Apply(input, before.value, input.observations[n], ds[n])
  }

  lemma {:induction false} TakenDecisions(hash: Hash, input: PlanInput, n: nat) returns (ds: seq<Decision>)
    requires Runs(hash, input, n)
    ensures |ds| == n && RunWith(input, ds) == Run(hash, input, n)
  {
    if n == 0 {
      ds := [];
    } else {
      Step(hash, input, n);
      var before := TakenDecisions(hash, input, n - 1);
      ds := before + [DecisionAt(hash, input, n - 1)];
      assert ds[..n - 1] == before;
    }
  }

  lemma {:induction false} RunWithBalances(input: PlanInput, ds: seq<Decision>)
    requires |ds| <= |input.observations| && RunWith(input, ds).Ok?
    ensures RowsBalance(input, RunWith(input, ds).value)
  {
    if ds != [] {
      var n := |ds| - 1;
      RunWithBalances(input, ds[..n]);
      RowsBalanceKept(input, RunWith(input, ds[..n]).value, input.observations[n], ds[n]);
    }
  }

  lemma {:induction false} RowsBalanced(hash: Hash, input: PlanInput, n: nat)
    requires Runs(hash, input, n)
    ensures RowsBalance(input, At(hash, input, n))
  {
    var ds := TakenDecisions(hash, input, n);
    RunWithBalances(input, ds);
  }

  /** No row disappears, and rows grow by exactly the additions. */
  lemma {:induction false} RowCount(hash: Hash, input: PlanInput, n: nat)
    requires Runs(hash, input, n)
    ensures |At(hash, input, n).rows| == |input.rows| + At(hash, input, n).added
    ensures input.rows.Keys <= At(hash, input, n).rows.Keys
  {
    RowsBalanced(hash, input, n);
    RowsGrow(hash, input, 0, n);
  }

  lemma {:induction false} RowsAfterWrite(rows: map<string, TxData>, id: string, data: TxData)
    ensures |rows[id := data]| == |rows| + if id in rows then 0 else 1
  {
  }

  lemma {:induction false} CountsBalanced(hash: Hash, input: PlanInput, n: nat)
    requires Runs(hash, input, n)
    ensures CountsBalance(At(hash, input, n), n, ReplayCount(hash, input, n))
  {
    if n > 0 {
      Step(hash, input, n);
      CountsBalanced(hash, input, n - 1);
      CountsBalanceKept(input, At(hash, input, n - 1), input.observations[n - 1], DecisionAt(hash, input, n - 1),
                        n - 1, ReplayCount(hash, input, n - 1));
    }
  }

  /** Every observation is stored or dropped, every stored one is new, merged or
      replayed, rows grow by exactly the additions and none disappears. */
  lemma {:induction false} Conservation(hash: Hash, input: PlanInput, n: nat)
    requires Runs(hash, input, n)
    ensures var st := At(hash, input, n);
      && st.stored + st.dropped == n
      && st.added + st.modified + ReplayCount(hash, input, n) == st.stored
      && |st.rows| == |input.rows| + st.added
      && input.rows.Keys <= st.rows.Keys
  {
    RowCount(hash, input, n);
    CountsBalanced(hash, input, n);
  }

  lemma {:induction false} SeenExactly(hash: Hash, input: PlanInput, n: nat)
    requires Runs(hash, input, n)
    ensures forall x :: x in At(hash, input, n).seen <==> exists i :: 0 <= i < n && input.observations[i].occurrenceId == x
  {
    if n > 0 {
      Step(hash, input, n);
      SeenExactly(hash, input, n - 1);
      assert input.observations[n - 1].occurrenceId in At(hash, input, n).seen;
    }
  }

  lemma {:induction false} RowsGrow(hash: Hash, input: PlanInput, m: nat, n: nat)
    requires m <= n && Runs(hash, input, n)
    ensures Runs(hash, input, m)
    ensures At(hash, input, m).rows.Keys <= At(hash, input, n).rows.Keys
    decreases n
  {
    if m < n {
      Step(hash, input, n);
      RowsGrow(hash, input, m, n - 1);
    }
  }

  /** Rows that no observation was written to keep their data. */
  lemma {:induction false} UnobservedUnchanged(hash: Hash, input: PlanInput, n: nat, id: string)
    requires Runs(hash, input, n) && id !in At(hash, input, n).observed
    ensures Lookup(At(hash, input, n).rows, id) == Lookup(input.rows, id)
  {
    if n > 0 {
      Step(hash, input, n);
      UnobservedUnchanged(hash, input, n - 1, id);
    }
  }

  /** The loop drops an observation for want of an identity exactly when its
      approved row has an empty id, or it needs an occurrence identity and the
      occurrence or the promotion scope is empty. */
  lemma {:induction false} IdentityDropsExactly(hash: Hash, input: PlanInput, i: nat)
    requires i < |input.observations| && Runs(hash, input, i + 1)
    ensures Runs(hash, input, i)
    ensures var o := input.observations[i]; var st := At(hash, input, i);
      DecisionAt(hash, input, i) == Dropped(NoIdentity)
      <==> && !Claimed(st.ledger, o.occurrenceId)
           && if Declares(o) then
                Accepted(SnapshotOf(input), ClaimKey(o)) && Target(SnapshotOf(input), ClaimKey(o)) == ""
              else
                && (o.occurrenceId == "" || input.scopeId == "")
                && if HasBankReference(o)
                   then !ReferenceFree(input, st.rows, o, {}) || BankTxId(hash, input, o) in st.rows
                   else !Utf16Order.Less(o.bookingDate, input.floorDate)
  {
  }

  /** With the ids the source guarantees, no observation is ever dropped for want
      of an identity. */
  lemma {:induction false} AlwaysIdentified(hash: Hash, input: PlanInput, i: nat)
    requires i < |input.observations| && Runs(hash, input, i)
    requires "" !in input.rows && input.scopeId != "" && input.observations[i].occurrenceId != ""
    ensures DecisionAt(hash, input, i) != Dropped(NoIdentity)
  {
  }

  // ---------------------------------------- distinct observations, distinct rows

  ghost predicate CollisionFree(hash: Hash) {
    forall a, b :: hash(a) == hash(b) ==> a == b
  }

  /** The promotion scope minted no stored row for an occurrence it has not claimed. */
  ghost predicate ScopeFresh(hash: Hash, input: PlanInput) {
    forall account, occurrence :: !Claimed(input.ledger, occurrence) ==>
      OccurrenceTxId(hash, input.connectionId, account, input.scopeId, occurrence) !in input.rows
  }

  ghost predicate MintedFromReference(hash: Hash, id: string) {
    exists accountId, reference :: id == TransactionId(hash, accountId, reference) && IsBankProvidedId(Some(reference))
  }

  ghost predicate MintedFromOccurrence(hash: Hash, input: PlanInput, seen: set<string>, id: string) {
    exists account, occurrence :: occurrence in seen
      && id == OccurrenceTxId(hash, input.connectionId, account, input.scopeId, occurrence)
  }

  /** Where the rows of a run come from. */
  lemma {:induction false} RowOrigin(hash: Hash, input: PlanInput, n: nat, id: string)
    requires Runs(hash, input, n) && id in At(hash, input, n).rows
    ensures id in input.rows || MintedFromReference(hash, id) || MintedFromOccurrence(hash, input, At(hash, input, n).seen, id)
  {
    if n > 0 {
      Step(hash, input, n);
      var before, after := At(hash, input, n - 1), At(hash, input, n);
      var o, d := input.observations[n - 1], DecisionAt(hash, input, n - 1);
      if id in before.rows {
        RowOrigin(hash, input, n - 1, id);
        if MintedFromOccurrence(hash, input, before.seen, id) {
          var account, occurrence :| occurrence in before.seen
            && id == OccurrenceTxId(hash, input.connectionId, account, input.scopeId, occurrence);
          assert occurrence in after.seen;
        }
      } else {
        assert d.Written? && id == d.txId;
        if !d.update && id != OccurrenceRow(hash, input, o) {
          assert id == TransactionId(hash, AccountId(hash, input.connectionId, o.account), o.providerTransactionId.value);
        } else if !d.update {
          assert o.occurrenceId in after.seen;
        }
      }
    }
  }

  /** The ledger changes only at occurrences already seen. */
  lemma {:induction false} LedgerElsewhere(hash: Hash, input: PlanInput, n: nat, occurrence: string)
    requires Runs(hash, input, n) && occurrence !in At(hash, input, n).seen
    ensures Claimed(At(hash, input, n).ledger, occurrence) <==> Claimed(input.ledger, occurrence)
  {
    if n > 0 {
      Step(hash, input, n);
      LedgerElsewhere(hash, input, n - 1, occurrence);
    }
  }

  lemma {:induction false} OccurrenceRowsDiffer(hash: Hash, input: PlanInput, a: Option<string>, x: string, b: Option<string>, y: string)
    requires CollisionFree(hash) && x != y
    ensures OccurrenceTxId(hash, input.connectionId, a, input.scopeId, x) != OccurrenceTxId(hash, input.connectionId, b, input.scopeId, y)
  {
    var rx := OCCURRENCE_PREFIX + input.scopeId + ":" + x;
    var ry := OCCURRENCE_PREFIX + input.scopeId + ":" + y;
    var k := |OCCURRENCE_PREFIX + input.scopeId + ":"|;
    assert rx[k..] == x && ry[k..] == y;
    assert [AccountId(hash, input.connectionId, a), rx][1] != [AccountId(hash, input.connectionId, b), ry][1];
  }

  lemma {:induction false} OccurrenceRowIsNotBank(hash: Hash, input: PlanInput, a: Option<string>, x: string, accountId: string, reference: string)
    requires CollisionFree(hash) && IsBankProvidedId(Some(reference))
    ensures OccurrenceTxId(hash, input.connectionId, a, input.scopeId, x) != TransactionId(hash, accountId, reference)
  {
    var rx := OCCURRENCE_PREFIX + input.scopeId + ":" + x;
    assert rx == OCCURRENCE_PREFIX + (input.scopeId + ":" + x);
    OccurrenceIdIsNotBank(input.scopeId + ":" + x);
    assert [AccountId(hash, input.connectionId, a), rx][1] != [accountId, reference][1];
  }

  /** An observation that is not an update always opens a row nobody has. */
  lemma {:induction false} FreshRow(hash: Hash, input: PlanInput, i: nat)
    requires CollisionFree(hash) && ScopeFresh(hash, input)
    requires i < |input.observations| && Runs(hash, input, i)
    requires DecisionAt(hash, input, i).Written? && !DecisionAt(hash, input, i).update
    ensures DecisionAt(hash, input, i).txId !in At(hash, input, i).rows
  {
    var st, o, d := At(hash, input, i), input.observations[i], DecisionAt(hash, input, i);
    if d.txId in st.rows {
      assert d.txId == OccurrenceRow(hash, input, o);
      LedgerElsewhere(hash, input, i, o.occurrenceId);
      RowOrigin(hash, input, i, d.txId);
      if MintedFromReference(hash, d.txId) {
        var accountId, reference :| d.txId == TransactionId(hash, accountId, reference) && IsBankProvidedId(Some(reference));
        OccurrenceRowIsNotBank(hash, input, o.account, o.occurrenceId, accountId, reference);
      } else {
        var account, occurrence :| occurrence in st.seen
          && d.txId == OccurrenceTxId(hash, input.connectionId, account, input.scopeId, occurrence);
        OccurrenceRowsDiffer(hash, input, o.account, o.occurrenceId, account, occurrence);
      }
    }
  }

  /** Two observations honoured as updates name different rows. */
  lemma {:induction false} UpdatesDiffer(hash: Hash, input: PlanInput, i: nat, j: nat)
    requires i < j < |input.observations| && Runs(hash, input, j)
    requires Runs(hash, input, i) && DecisionAt(hash, input, i).Written? && DecisionAt(hash, input, i).update
    requires DecisionAt(hash, input, j).Written? && DecisionAt(hash, input, j).update
    ensures DecisionAt(hash, input, i).txId != DecisionAt(hash, input, j).txId
  {
    var s := SnapshotOf(input);
    var a, b := ClaimKey(input.observations[i]), ClaimKey(input.observations[j]);
    assert Accepted(s, a) && Accepted(s, b);
    var positions := Positions(s.claims, a, |s.claims|);
    assert a == b ==> i in positions && j in positions;
    assert positions == {Only(positions)};
  }

  lemma {:induction false} WrittenStays(hash: Hash, input: PlanInput, i: nat, j: nat)
    requires i < j <= |input.observations| && Runs(hash, input, j)
    ensures Runs(hash, input, i)
    ensures DecisionAt(hash, input, i).Written? ==> DecisionAt(hash, input, i).txId in At(hash, input, j).rows
  {
    RowsGrow(hash, input, i + 1, j);
    Step(hash, input, i + 1);
  }

  lemma {:induction false} TargetIsStored(hash: Hash, input: PlanInput, i: nat)
    requires i < |input.observations| && Runs(hash, input, i)
    requires DecisionAt(hash, input, i).Written? && DecisionAt(hash, input, i).update
    ensures DecisionAt(hash, input, i).txId in input.rows
    ensures DecisionAt(hash, input, i).txId in ResolvedTargets(SnapshotOf(input)).Values
  {
    assert ClaimKey(input.observations[i]) in ResolvedTargets(SnapshotOf(input));
  }

  /** Distinct written observations land on distinct rows, however alike they look. */
  lemma {:induction false} DistinctRows(hash: Hash, input: PlanInput, i: nat, j: nat)
    requires CollisionFree(hash) && ScopeFresh(hash, input)
    requires i < j < |input.observations| && Runs(hash, input, j)
    requires Runs(hash, input, i) && DecisionAt(hash, input, i).Written? && DecisionAt(hash, input, j).Written?
    ensures DecisionAt(hash, input, i).txId != DecisionAt(hash, input, j).txId
  {
    if !DecisionAt(hash, input, j).update {
      WrittenStays(hash, input, i, j);
      FreshRow(hash, input, j);
    } else if DecisionAt(hash, input, i).update {
      UpdatesDiffer(hash, input, i, j);
    } else {
      FreshRow(hash, input, i);
      TargetIsStored(hash, input, j);
      Conservation(hash, input, i);
    }
  }

  /** A stored row that is not the target of an honoured update keeps its data. */
  lemma {:induction false} UntargetedRowsUnchanged(hash: Hash, input: PlanInput, n: nat, id: string)
    requires CollisionFree(hash) && ScopeFresh(hash, input)
    requires Runs(hash, input, n) && id in input.rows && id !in ResolvedTargets(SnapshotOf(input)).Values
    ensures id in At(hash, input, n).rows && At(hash, input, n).rows[id] == input.rows[id]
  {
    if n > 0 {
      Step(hash, input, n);
      UntargetedRowsUnchanged(hash, input, n - 1, id);
      var d := DecisionAt(hash, input, n - 1);
      if d.Written? && d.update {
        TargetIsStored(hash, input, n - 1);
      } else if d.Written? {
        FreshRow(hash, input, n - 1);
      }
    }
  }

  // ------------------------------------------- bank references stay unique

  ghost predicate BankReference(k: CanonicalKey) {
    IsBankProvidedId(Some(k.canonicalId))
  }

  /** No bank reference (account, id) is carried by two rows. */
  ghost predicate SingleOwners(rows: map<string, TxData>) {
    forall k :: BankReference(k) ==> |Owners(rows, k)| <= 1
  }

  /** Every honoured target still carries the reference it was sent under. */
  ghost predicate TargetsCarryTheirReference(input: PlanInput) {
    forall k :: Accepted(SnapshotOf(input), k) ==> RowKey(input.rows[Target(SnapshotOf(input), k)]) == k
  }

  /** A reference owned at the start gains no owner; a free one gains at most one. */
  ghost predicate OwnersBounded(input: PlanInput, rows: map<string, TxData>) {
    forall k :: BankReference(k) ==>
      if Owners(input.rows, k) != {} then Owners(rows, k) <= Owners(input.rows, k) else |Owners(rows, k)| <= 1
  }

  lemma {:induction false} OwnersAfterWrite(rows: map<string, TxData>, id: string, data: TxData, k: CanonicalKey)
    ensures RowKey(data) == k ==> Owners(rows[id := data], k) == Owners(rows, k) + {id}
    ensures RowKey(data) != k ==> Owners(rows[id := data], k) == Owners(rows, k) - {id}
  {
  }

  lemma {:induction false} SubsetSize<T>(a: set<T>, b: set<T>)
    requires a <= b
    ensures |a| <= |b|
  {
    assert b == a + (b - a);
  }

  /** Only the claim of an honoured key updates its row, and the merge keeps the
      account the row is keyed by. */
  lemma {:induction false} UpdateKeepsAccount(hash: Hash, input: PlanInput, st: PlanState, i: nat, key: CanonicalKey)
    requires i < |input.observations| && Accepted(SnapshotOf(input), key)
    requires Decide(hash, input, st, i).Written? && Decide(hash, input, st, i).update
    requires Decide(hash, input, st, i).txId == Target(SnapshotOf(input), key)
    requires Target(SnapshotOf(input), key) in st.rows
    requires KeyAccount(st.rows[Target(SnapshotOf(input), key)].account) == key.account
    ensures var t := Target(SnapshotOf(input), key);
      KeyAccount(Merge(Lookup(st.rows, t), input.observations[i], Decide(hash, input, st, i).canonicalId).account) == key.account
  {
  }

  /** Every observation among the first n that is not an update opened a new row. */
  ghost predicate OnlyUpdatesTouchRows(hash: Hash, input: PlanInput, n: nat) {
    forall i :: 0 <= i < n ==> OpensNewRow(hash, input, i)
  }

  ghost predicate OpensNewRow(hash: Hash, input: PlanInput, i: nat) {
    i < |input.observations| && Runs(hash, input, i) ==>
      var d := DecisionAt(hash, input, i);
      d.Written? && !d.update ==> d.txId !in At(hash, input, i).rows
  }

  lemma {:induction false} UpdatesOnly(hash: Hash, input: PlanInput, n: nat)
    requires CollisionFree(hash) && ScopeFresh(hash, input)
    ensures OnlyUpdatesTouchRows(hash, input, n)
  {
    forall i: nat | i < n ensures OpensNewRow(hash, input, i) {
      if i < |input.observations| && Runs(hash, input, i)
         && DecisionAt(hash, input, i).Written? && !DecisionAt(hash, input, i).update {
        FreshRow(hash, input, i);
      }
    }
  }

  /** The row of an honoured key exists and stays under the account of the key. */
  ghost predicate UnderAccount(input: PlanInput, rows: map<string, TxData>, key: CanonicalKey) {
    Accepted(SnapshotOf(input), key) && Target(SnapshotOf(input), key) in rows
    && KeyAccount(rows[Target(SnapshotOf(input), key)].account) == key.account
  }

  lemma {:induction false} AccountKeptByStep(hash: Hash, input: PlanInput, st: PlanState, i: nat, key: CanonicalKey)
    requires i < |input.observations| && UnderAccount(input, st.rows, key)
    requires var d := Decide(hash, input, st, i); d.Written? && !d.update ==> d.txId !in st.rows
    requires Apply(input, st, input.observations[i], Decide(hash, input, st, i)).Ok?
    ensures UnderAccount(input, Apply(input, st, input.observations[i], Decide(hash, input, st, i)).value.rows, key)
  {
    var d := Decide(hash, input, st, i);
    if d.Written? && d.update && d.txId == Target(SnapshotOf(input), key) {
      UpdateKeepsAccount(hash, input, st, i, key);
    }
  }

  /** An honoured target stays under the account it was approved for. */
  lemma {:induction false} AccountsKept(hash: Hash, input: PlanInput, n: nat, key: CanonicalKey)
    requires OnlyUpdatesTouchRows(hash, input, n)
    requires Runs(hash, input, n) && Accepted(SnapshotOf(input), key)
    ensures UnderAccount(input, At(hash, input, n).rows, key)
  {
    if n > 0 {
      Step(hash, input, n);
      AccountsKept(hash, input, n - 1, key);
      assert OpensNewRow(hash, input, n - 1);
      AccountKeptByStep(hash, input, At(hash, input, n - 1), n - 1, key);
    }
  }

  lemma {:induction false} OwnersBoundedStep(hash: Hash, input: PlanInput, n: nat, k: CanonicalKey)
    requires CollisionFree(hash) && ScopeFresh(hash, input) && TargetsCarryTheirReference(input)
    requires n > 0 && Runs(hash, input, n) && Runs(hash, input, n - 1)
    requires OwnersBounded(input, At(hash, input, n - 1).rows) && BankReference(k)
    ensures var now := Owners(At(hash, input, n).rows, k);
      if Owners(input.rows, k) != {} then now <= Owners(input.rows, k) else |now| <= 1
  {
    Step(hash, input, n);
    Conservation(hash, input, n - 1);
    var st, o, d := At(hash, input, n - 1), input.observations[n - 1], DecisionAt(hash, input, n - 1);
    if d.Written? {
      var data := Merge(Lookup(st.rows, d.txId), o, d.canonicalId);
      OwnersAfterWrite(st.rows, d.txId, data, k);
      if RowKey(data) != k {
        SubsetSize(Owners(st.rows, k) - {d.txId}, Owners(st.rows, k));
      } else {
        WrittenReference(hash, input, n - 1, k);
        OneMoreOwner(Owners(input.rows, k), Owners(st.rows, k), d.txId);
      }
    }
  }

  lemma {:induction false} OneMoreOwner(start: set<string>, before: set<string>, id: string)
    requires if start != {} then before <= start else |before| <= 1
    requires id in start || (start <= {id} && before <= {id})
    ensures if start != {} then before + {id} <= start else |before + {id}| <= 1
  {
  }

  /** A write puts a bank reference on a row only if nobody else carries it, or the
      row carried it from the start. */
  lemma {:induction false} WrittenReference(hash: Hash, input: PlanInput, i: nat, k: CanonicalKey)
    requires CollisionFree(hash) && ScopeFresh(hash, input) && TargetsCarryTheirReference(input)
    requires i < |input.observations| && Runs(hash, input, i) && DecisionAt(hash, input, i).Written?
    requires var d := DecisionAt(hash, input, i);
      RowKey(Merge(Lookup(At(hash, input, i).rows, d.txId), input.observations[i], d.canonicalId)) == k && BankReference(k)
    ensures var st := At(hash, input, i); var id := DecisionAt(hash, input, i).txId;
      || id in Owners(input.rows, k)
      || (Owners(input.rows, k) <= {id} && Owners(st.rows, k) <= {id})
  {
    var st, o, d := At(hash, input, i), input.observations[i], DecisionAt(hash, input, i);
    if d.update {
      var key := ClaimKey(o);
      UpdatesOnly(hash, input, i);
      AccountsKept(hash, input, i, key);
      assert k.account == KeyAccount(o.account) == key.account;
      if HasBankReference(o) && ReferenceFree(input, st.rows, o, {d.txId}) {
        assert k == BankKey(o);
      } else {
        assert k == key;
        TargetIsStored(hash, input, i);
        assert RowKey(input.rows[d.txId]) == k;
      }
    } else {
      FreshRow(hash, input, i);
      if d.canonicalId == OCCURRENCE_PREFIX + OccurrenceRow(hash, input, o) {
        OccurrenceIdIsNotBank(OccurrenceRow(hash, input, o));
      } else {
        assert k == BankKey(o);
      }
    }
  }

  lemma {:induction false} OwnersStayBounded(hash: Hash, input: PlanInput, n: nat)
    requires CollisionFree(hash) && ScopeFresh(hash, input) && TargetsCarryTheirReference(input) && SingleOwners(input.rows)
    requires Runs(hash, input, n)
    ensures OwnersBounded(input, At(hash, input, n).rows)
  {
    if n > 0 {
      Step(hash, input, n);
      OwnersStayBounded(hash, input, n - 1);
      forall k | BankReference(k)
        ensures var now := Owners(At(hash, input, n).rows, k);
          if Owners(input.rows, k) != {} then now <= Owners(input.rows, k) else |now| <= 1
      {
        OwnersBoundedStep(hash, input, n, k);
      }
    }
  }

  /** If no bank reference had two owning rows and every honoured target still
      carries its reference, no bank reference has two owning rows afterwards. */
  lemma {:induction false} BankReferencesStayUnique(hash: Hash, input: PlanInput, n: nat)
    requires CollisionFree(hash) && ScopeFresh(hash, input) && TargetsCarryTheirReference(input) && SingleOwners(input.rows)
    requires Runs(hash, input, n)
    ensures SingleOwners(At(hash, input, n).rows)
  {
    OwnersStayBounded(hash, input, n);
    forall k | BankReference(k) ensures |Owners(At(hash, input, n).rows, k)| <= 1 {
      if Owners(input.rows, k) != {} {
        SubsetSize(Owners(At(hash, input, n).rows, k), Owners(input.rows, k));
      }
    }
  }

  // ------------------------------------------------------------------ replay

  /** The second promotion: the first one's rows and ledger, any floor and targets. */
  function Again(input: PlanInput, st: PlanState, targets: map<CanonicalKey, set<string>>, floorDate: string): PlanInput {
    input.(rows := st.rows, ledger := st.ledger, targets := targets, floorDate := floorDate)
  }

  ghost predicate Stores(d: Decision) {
    d.Written? || d.Replayed?
  }

  lemma {:induction false} NotSeenBefore(hash: Hash, input: PlanInput, i: nat, n: nat)
    requires i < n && Runs(hash, input, n)
    ensures Runs(hash, input, i) && input.observations[i].occurrenceId !in At(hash, input, i).seen
    ensures input.observations[i].occurrenceId in At(hash, input, n).seen
  {
    Prefix(hash, input, i + 1, n);
    Step(hash, input, i + 1);
    SeenExactly(hash, input, n);
  }

  /** A claim that names a stored row. */
  predicate ClaimsStored(st: PlanState, occurrence: string) {
    Claimed(st.ledger, occurrence) && st.ledger[occurrence] in st.rows
  }

  /** What a decision that did not throw says about the ledger. */
  lemma {:induction false} DecidedOnLedger(hash: Hash, input: PlanInput, st: PlanState, i: nat)
    requires (forall x :: hash(x) != "") && i < |input.observations|
    ensures var o, d := input.observations[i], Decide(hash, input, st, i);
      && (d.Written? ==> d.txId != "")
      && (d.Replayed? ==> ClaimsStored(st, o.occurrenceId))
      && (d.Dropped? ==> !Claimed(st.ledger, o.occurrenceId))
  {
  }

  lemma {:induction false} SettledByApply(input: PlanInput, st: PlanState, o: Observation, d: Decision)
    requires Apply(input, st, o, d).Ok? && (d.Written? ==> d.txId != "")
    requires (d.Replayed? ==> ClaimsStored(st, o.occurrenceId)) && (d.Dropped? ==> !Claimed(st.ledger, o.occurrenceId))
    ensures var q := Apply(input, st, o, d).value;
      if Stores(d) then ClaimsStored(q, o.occurrenceId) else !Claimed(q.ledger, o.occurrenceId)
  {
  }

  lemma {:induction false} ApplyElsewhere(input: PlanInput, st: PlanState, o: Observation, d: Decision, occurrence: string)
    requires Apply(input, st, o, d).Ok? && occurrence != o.occurrenceId
    ensures var q := Apply(input, st, o, d).value;
      && (ClaimsStored(st, occurrence) ==> ClaimsStored(q, occurrence))
      && (Claimed(q.ledger, occurrence) <==> Claimed(st.ledger, occurrence))
  {
  }

  /** A decision on observation i settles its ledger entry for the rest of the run. */
  lemma {:induction false} LedgerSettled(hash: Hash, input: PlanInput, i: nat, n: nat)
    requires forall x :: hash(x) != ""
    requires i < n && Runs(hash, input, n) && Runs(hash, input, i)
    ensures var st := At(hash, input, n); var occurrence := input.observations[i].occurrenceId;
      if Stores(DecisionAt(hash, input, i)) then ClaimsStored(st, occurrence) else !Claimed(st.ledger, occurrence)
    decreases n
  {
    Step(hash, input, n);
    if i == n - 1 {
      DecidedOnLedger(hash, input, At(hash, input, i), i);
      SettledByApply(input, At(hash, input, i), input.observations[i], DecisionAt(hash, input, i));
    } else {
      LedgerSettled(hash, input, i, n - 1);
      OccurrencesDiffer(hash, input, i, n);
      ApplyElsewhere(input, At(hash, input, n - 1), input.observations[n - 1], DecisionAt(hash, input, n - 1),
                     input.observations[i].occurrenceId);
    }
  }

  lemma {:induction false} OccurrencesDiffer(hash: Hash, input: PlanInput, i: nat, n: nat)
    requires i < n - 1 && Runs(hash, input, n)
    ensures input.observations[i].occurrenceId != input.observations[n - 1].occurrenceId
  {
    NotSeenBefore(hash, input, n - 1, n);
    NotSeenBefore(hash, input, i, n - 1);
  }

  lemma {:induction false} ReplayOne(hash: Hash, input: PlanInput, again: PlanInput, i: nat)
    requires forall x :: hash(x) != ""
    requires Runs(hash, input, |input.observations|) && i < |input.observations|
    requires again.observations == input.observations && again.scopeId == input.scopeId
    requires again.ledger == At(hash, input, |input.observations|).ledger
    requires again.rows == At(hash, input, |input.observations|).rows
    requires Runs(hash, again, i)
    ensures Runs(hash, input, i) && !DecisionAt(hash, again, i).Fails?
    ensures Stores(DecisionAt(hash, input, i)) ==> DecisionAt(hash, again, i) == Replayed
  {
    var o := input.observations[i];
    NotSeenBefore(hash, input, i, |input.observations|);
    LedgerSettled(hash, input, i, |input.observations|);
    assert o.occurrenceId !in At(hash, again, i).seen by {
      SeenExactly(hash, input, i);
      SeenExactly(hash, again, i);
    }
    LedgerUntouched(hash, again, i, o.occurrenceId);
    Conservation(hash, again, i);
  }

  lemma {:induction false} ReplayRuns(hash: Hash, input: PlanInput, again: PlanInput, n: nat)
    requires forall x :: hash(x) != ""
    requires Runs(hash, input, |input.observations|) && n <= |input.observations|
    requires again.observations == input.observations && again.scopeId == input.scopeId
    requires again.ledger == At(hash, input, |input.observations|).ledger
    requires again.rows == At(hash, input, |input.observations|).rows
    ensures Runs(hash, again, n)
  {
    if n > 0 {
      ReplayRuns(hash, input, again, n - 1);
      ReplayOne(hash, input, again, n - 1);
    }
  }

  /** Replaying a finished promotion never throws, and replays every observation
      the first run stored, whatever the new floor and targets are. */
  lemma {:induction false} ReplayIsExact(hash: Hash, input: PlanInput, targets: map<CanonicalKey, set<string>>, floorDate: string, i: nat)
    requires forall x :: hash(x) != ""
    requires Runs(hash, input, |input.observations|) && i < |input.observations|
    ensures var again := Again(input, At(hash, input, |input.observations|), targets, floorDate);
      && Runs(hash, again, |again.observations|)
      && Runs(hash, input, i) && Runs(hash, again, i)
      && (Stores(DecisionAt(hash, input, i)) ==> DecisionAt(hash, again, i) == Replayed)
  {
    var again := Again(input, At(hash, input, |input.observations|), targets, floorDate);
    ReplayRuns(hash, input, again, |input.observations|);
    ReplayRuns(hash, input, again, i);
    ReplayOne(hash, input, again, i);
  }

  lemma {:induction false} LedgerUntouched(hash: Hash, input: PlanInput, n: nat, occurrence: string)
    requires Runs(hash, input, n) && occurrence !in At(hash, input, n).seen
    ensures occurrence in At(hash, input, n).ledger <==> occurrence in input.ledger
    ensures occurrence in input.ledger ==> At(hash, input, n).ledger[occurrence] == input.ledger[occurrence]
  {
    if n > 0 {
      Step(hash, input, n);
      LedgerUntouched(hash, input, n - 1, occurrence);
    }
  }

  /** A rerun that has only replayed so far. */
  ghost predicate OnlyReplayed(first: PlanState, second: PlanState, n: nat) {
    && second.rows == first.rows && second.ledger == first.ledger
    && second.added == 0 && second.modified == 0 && second.dropped == 0 && second.stored == n
  }

  lemma {:induction false} ReplayedOnce(input: PlanInput, first: PlanState, st: PlanState, o: Observation, n: nat)
    requires OnlyReplayed(first, st, n)
    ensures Apply(input, st, o, Replayed).Ok? && OnlyReplayed(first, Apply(input, st, o, Replayed).value, n + 1)
  {
  }

  predicate DistinctOccurrences(observations: seq<Observation>) {
    forall i, j :: 0 <= i < j < |observations| ==> observations[i].occurrenceId != observations[j].occurrenceId
  }

  /** Every observation has a claim that names a stored row. */
  predicate AllClaimed(again: PlanInput) {
    forall i :: 0 <= i < |again.observations| ==> ClaimsStored(Initial(again), again.observations[i].occurrenceId)
  }

  lemma {:induction false} ClaimedReplays(hash: Hash, again: PlanInput, n: nat)
    requires DistinctOccurrences(again.observations) && AllClaimed(again) && n < |again.observations|
    requires Runs(hash, again, n) && OnlyReplayed(Initial(again), At(hash, again, n), n)
    ensures DecisionAt(hash, again, n) == Replayed
  {
    SeenExactly(hash, again, n);
    assert again.observations[n].occurrenceId !in At(hash, again, n).seen;
    assert ClaimsStored(Initial(again), again.observations[n].occurrenceId);
  }

  lemma {:induction false} ReplayStep(hash: Hash, again: PlanInput, n: nat)
    requires n < |again.observations| && Runs(hash, again, n) && DecisionAt(hash, again, n) == Replayed
    requires OnlyReplayed(Initial(again), At(hash, again, n), n)
    ensures Runs(hash, again, n + 1) && OnlyReplayed(Initial(again), At(hash, again, n + 1), n + 1)
  {
    ReplayedOnce(again, Initial(again), At(hash, again, n), again.observations[n], n);
  }

  /** A run on rows and claims that cover its whole batch changes nothing. */
  lemma {:induction false} ReplaysAll(hash: Hash, again: PlanInput, n: nat)
    requires DistinctOccurrences(again.observations) && AllClaimed(again) && n <= |again.observations|
    ensures Runs(hash, again, n) && OnlyReplayed(Initial(again), At(hash, again, n), n)
  {
    if n > 0 {
      ReplaysAll(hash, again, n - 1);
      ClaimedReplays(hash, again, n - 1);
      ReplayStep(hash, again, n - 1);
    }
  }

  lemma {:induction false} RunsDistinct(hash: Hash, input: PlanInput)
    requires Runs(hash, input, |input.observations|)
    ensures DistinctOccurrences(input.observations)
  {
    forall i, j | 0 <= i < j < |input.observations|
      ensures input.observations[i].occurrenceId != input.observations[j].occurrenceId
    {
      Prefix(hash, input, j + 1, |input.observations|);
      OccurrencesDiffer(hash, input, i, j + 1);
    }
  }

  /** While nothing is dropped, every observation so far has its claim. */
  lemma {:induction false} StoredIsClaimed(hash: Hash, input: PlanInput, i: nat, n: nat)
    requires (forall x :: hash(x) != "") && i < n && Runs(hash, input, n) && At(hash, input, n).dropped == 0
    ensures ClaimsStored(At(hash, input, n), input.observations[i].occurrenceId)
    decreases n
  {
    Step(hash, input, n);
    var o := input.observations[n - 1];
    DropsCount(input, At(hash, input, n - 1), o, DecisionAt(hash, input, n - 1));
    if i == n - 1 {
      DecidedOnLedger(hash, input, At(hash, input, i), i);
      SettledByApply(input, At(hash, input, i), o, DecisionAt(hash, input, i));
    } else {
      StoredIsClaimed(hash, input, i, n - 1);
      OccurrencesDiffer(hash, input, i, n);
      ApplyElsewhere(input, At(hash, input, n - 1), o, DecisionAt(hash, input, n - 1), input.observations[i].occurrenceId);
    }
  }

  /** If the first run dropped nothing, the replay changes nothing at all. */
  lemma {:induction false} ReplayIsIdentity(hash: Hash, input: PlanInput, targets: map<CanonicalKey, set<string>>, floorDate: string, n: nat)
    requires forall x :: hash(x) != ""
    requires Runs(hash, input, |input.observations|) && n <= |input.observations|
    requires At(hash, input, |input.observations|).dropped == 0
    ensures var first := At(hash, input, |input.observations|); var again := Again(input, first, targets, floorDate);
      Runs(hash, again, n) && OnlyReplayed(first, At(hash, again, n), n)
  {
    var first := At(hash, input, |input.observations|);
    var again := Again(input, first, targets, floorDate);
    RunsDistinct(hash, input);
    forall i | 0 <= i < |input.observations| ensures ClaimsStored(first, input.observations[i].occurrenceId) {
      StoredIsClaimed(hash, input, i, |input.observations|);
    }
    FirstCovers(first, again);
    ReplaysAll(hash, again, n);
    SameReplay(first, Initial(again), At(hash, again, n), n);
  }

  lemma {:induction false} FirstCovers(first: PlanState, again: PlanInput)
    requires again.rows == first.rows && again.ledger == first.ledger
    requires forall i :: 0 <= i < |again.observations| ==> ClaimsStored(first, again.observations[i].occurrenceId)
    ensures AllClaimed(again)
  {
  }

  lemma {:induction false} SameReplay(first: PlanState, start: PlanState, second: PlanState, n: nat)
    requires start.rows == first.rows && start.ledger == first.ledger && OnlyReplayed(start, second, n)
    ensures OnlyReplayed(first, second, n)
  {
  }

  lemma {:induction false} DropsCount(input: PlanInput, st: PlanState, o: Observation, d: Decision)
    requires Apply(input, st, o, d).Ok? && Apply(input, st, o, d).value.dropped == 0
    ensures st.dropped == 0 && Stores(d)
  {
  }

  // ------------------------------------------------------ newest booking date

  ghost predicate StoredAt(hash: Hash, input: PlanInput, n: nat, i: nat) {
    i < n && i < |input.observations| && Runs(hash, input, i) && Stores(DecisionAt(hash, input, i))
  }

  /** A newest date that bounds one booking date. */
  predicate Bounds(newest: Option<string>, date: string) {
    Truthy(newest) && !Utf16Order.Less(newest.value, date)
  }

  lemma {:induction false} LaterBounds(newest: Option<string>, date: string, other: string)
    requires date != ""
    ensures other != "" ==> Bounds(LaterDate(newest, other), other)
    ensures Bounds(newest, date) ==> Bounds(LaterDate(newest, other), date)
  {
    Utf16Order.LessTotal(other, other);
    if Bounds(newest, date) && Utf16Order.Less(newest.value, other) {
      NotLessThrough(newest.value, other, date);
    }
  }

  lemma {:induction false} AppliedNewest(input: PlanInput, st: PlanState, o: Observation, d: Decision)
    requires Apply(input, st, o, d).Ok?
    ensures Apply(input, st, o, d).value.newest == if Stores(d) then LaterDate(st.newest, o.bookingDate) else st.newest
  {
  }

  /** No stored observation was booked after the reported date. */
  lemma {:induction false} NewestBounds(hash: Hash, input: PlanInput, n: nat, i: nat)
    requires Runs(hash, input, n) && StoredAt(hash, input, n, i) && input.observations[i].bookingDate != ""
    ensures Bounds(At(hash, input, n).newest, input.observations[i].bookingDate)
    decreases n
  {
    Step(hash, input, n);
    if i < n - 1 {
      NewestBounds(hash, input, n - 1, i);
    }
    AppliedNewest(input, At(hash, input, n - 1), input.observations[n - 1], DecisionAt(hash, input, n - 1));
    LaterBounds(At(hash, input, n - 1).newest, input.observations[i].bookingDate, input.observations[n - 1].bookingDate);
  }

  /** The reported date, when there is one, is that of a stored observation; there
      is none exactly when nothing was stored. */
  lemma {:induction false} NewestAttained(hash: Hash, input: PlanInput, n: nat) returns (i: nat)
    requires Runs(hash, input, n)
    ensures At(hash, input, n).newest.None? <==> At(hash, input, n).stored == 0
    ensures At(hash, input, n).newest.Some? ==>
      StoredAt(hash, input, n, i) && input.observations[i].bookingDate == At(hash, input, n).newest.value
  {
    i := 0;
    if n > 0 {
      Step(hash, input, n);
      i := NewestAttained(hash, input, n - 1);
      if Stores(DecisionAt(hash, input, n - 1)) && At(hash, input, n).newest != At(hash, input, n - 1).newest {
        i := n - 1;
      }
    }
  }

  lemma {:induction false} NotLessThrough(before: string, after: string, date: string)
    requires !Utf16Order.Less(before, date) && (after == before || Utf16Order.Less(before, after))
    ensures !Utf16Order.Less(after, date)
  {
    if after != before && Utf16Order.Less(after, date) {
      Utf16Order.LessTransitive(before, after, date);
    }
  }

  // --------------------------------------------- why the targets hypothesis

  /** A target that drifted: the approved row no longer carries the reference it was
      sent under, another row does, and the update leaves both carrying it. */
  lemma {:induction false} DriftedTargetSharesReference(hash: Hash)
    ensures var input := DriftedInput();
      && SingleOwners(input.rows)
      && !TargetsCarryTheirReference(input)
      && Runs(hash, input, 1)
      && !SingleOwners(At(hash, input, 1).rows)
  {
    var input := DriftedInput();
    var key := CanonicalKey("acct", "X1");
    DriftedAccepted();
    assert !HasBankReference(input.observations[0]);
    assert Run(hash, input, 0) == Ok(Initial(input));
    assert Decide(hash, input, Initial(input), 0) == Written("row-a", "X1", true);
    assert Owners(At(hash, input, 1).rows, key) == {"row-a", "row-b"};
    X1IsBankReference();
    forall k ensures |Owners(input.rows, k)| <= 1 {
      var most := if k.canonicalId == "W1" then {"row-a"} else {"row-b"};
      assert Owners(input.rows, k) <= most;
      SubsetSize(Owners(input.rows, k), most);
    }
  }

  lemma {:induction false} X1IsBankReference()
    ensures BankReference(CanonicalKey("acct", "X1"))
  {
  }

  lemma {:induction false} DriftedAccepted()
    ensures var s := SnapshotOf(DriftedInput()); var key := CanonicalKey("acct", "X1");
      ClaimKey(s.claims[0]) == key && Accepted(s, key) && Target(s, key) == "row-a"
  {
    var s, key := SnapshotOf(DriftedInput()), CanonicalKey("acct", "X1");
    assert Positions(s.claims, key, 1) == {0};
    assert Only(s.targets[key]) == "row-a";
    assert Eligible(s, key);
    assert forall other :: Eligible(s, other) ==> other == key;
  }

  function DriftedInput(): PlanInput {
    PlanInput("conn", "scope",
              [Observation(Some("acct"), None, Some("X1"), "occ-1", "2026-07-30", map[])],
              map["row-a" := TxData(Some("acct"), "W1", "2026-07-01", map[]),
                  "row-b" := TxData(Some("acct"), "X1", "2026-07-02", map[])],
              map[CanonicalKey("acct", "X1") := {"row-a"}],
              map[], "2026-05-01")
  }
}
