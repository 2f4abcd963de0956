/** What a promotion leaves in the rows, field by field, and what it refuses. */
module PromotionContents {
  import opened Basics
  import opened TxIdentity
  import opened PromotionSpec
  import opened PlannerTheorems
  import Utf16Order

  /** Observation i is written to row id. */
  ghost predicate WrittenTo(hash: Hash, input: PlanInput, i: nat, id: string) {
    i < |input.observations| && Runs(hash, input, i)
    && DecisionAt(hash, input, i).Written? && DecisionAt(hash, input, i).txId == id
  }

  // ------------------------------------------------------------ field by field

  /** The row shows the observation: its booking date, its account if it has one, and
      every field present on it. */
  predicate Shows(row: TxData, o: Observation) {
    && row.bookingDate == o.bookingDate
    && (o.account.Some? ==> row.account == o.account)
    && (forall f :: f in o.rest ==> f in row.rest && row.rest[f] == o.rest[f])
  }

  /** A field the observation does not carry is that of the earlier row, present or not. */
  predicate RetainsField(row: TxData, was: TxData, f: string) {
    (f in row.rest <==> f in was.rest) && (f in was.rest ==> row.rest[f] == was.rest[f])
  }

  ghost predicate Retains(row: TxData, was: TxData, o: Observation) {
    && (o.account.None? ==> row.account == was.account)
    && (forall f :: f !in o.rest ==> RetainsField(row, was, f))
  }

  /** A row no later observation is written to keeps its data. */
  lemma {:induction false} KeptAfter(hash: Hash, input: PlanInput, m: nat, n: nat, id: string)
    requires m <= n && Runs(hash, input, m) && Runs(hash, input, n)
    requires forall j :: m <= j < n ==> !WrittenTo(hash, input, j, id)
    ensures Lookup(At(hash, input, n).rows, id) == Lookup(At(hash, input, m).rows, id)
    decreases n
  {
    if m < n {
      Step(hash, input, n);
      KeptAfter(hash, input, m, n - 1, id);
      assert !WrittenTo(hash, input, n - 1, id);
      ApplyKeeps(input, At(hash, input, n - 1), input.observations[n - 1], DecisionAt(hash, input, n - 1), id);
    }
  }

  lemma {:induction false} ApplyKeeps(input: PlanInput, st: PlanState, o: Observation, d: Decision, id: string)
    requires Apply(input, st, o, d).Ok? && !(d.Written? && d.txId == id)
    ensures Lookup(Apply(input, st, o, d).value.rows, id) == Lookup(st.rows, id)
  {
  }

  lemma {:induction false} OnlyWrite(hash: Hash, input: PlanInput, i: nat, j: nat, id: string)
    requires CollisionFree(hash) && ScopeFresh(hash, input)
    requires WrittenTo(hash, input, i, id) && WrittenTo(hash, input, j, id)
    ensures i == j
  {
    if i < j {
      DistinctRows(hash, input, i, j);
    } else if j < i {
      DistinctRows(hash, input, j, i);
    }
  }

  /** Just before its write a row is as it was stored, or absent. */
  lemma {:induction false} AsStored(hash: Hash, input: PlanInput, i: nat, id: string)
    requires CollisionFree(hash) && ScopeFresh(hash, input) && WrittenTo(hash, input, i, id)
    ensures Lookup(At(hash, input, i).rows, id) == Lookup(input.rows, id)
  {
    Prefix(hash, input, 0, i);
    forall j | 0 <= j < i ensures !WrittenTo(hash, input, j, id) {
      if WrittenTo(hash, input, j, id) {
        OnlyWrite(hash, input, j, i, id);
      }
    }
    KeptAfter(hash, input, 0, i, id);
  }

  /** What one write leaves on its row. */
  lemma {:induction false} WriteContents(input: PlanInput, st: PlanState, o: Observation, d: Decision)
    requires d.Written?
    ensures Apply(input, st, o, d).Ok? && d.txId in Apply(input, st, o, d).value.rows
    ensures var row := Apply(input, st, o, d).value.rows[d.txId];
      && Shows(row, o) && row.canonicalId == d.canonicalId
      && (d.txId in st.rows ==> Retains(row, st.rows[d.txId], o))
      && (d.txId !in st.rows ==> row.rest.Keys == o.rest.Keys && row.account == o.account)
  {
  }

  lemma {:induction false} ContentsAtWrite(hash: Hash, input: PlanInput, i: nat, id: string)
    requires WrittenTo(hash, input, i, id)
    ensures Runs(hash, input, i + 1) && id in At(hash, input, i + 1).rows
    ensures var row, o, st := At(hash, input, i + 1).rows[id], input.observations[i], At(hash, input, i);
      && Shows(row, o) && row.canonicalId == DecisionAt(hash, input, i).canonicalId
      && (id in st.rows ==> Retains(row, st.rows[id], o))
      && (id !in st.rows ==> row.rest.Keys == o.rest.Keys && row.account == o.account)
  {
    WriteContents(input, At(hash, input, i), input.observations[i], DecisionAt(hash, input, i));
  }

  lemma {:induction false} KeptSinceWrite(hash: Hash, input: PlanInput, i: nat, n: nat, id: string)
    requires CollisionFree(hash) && ScopeFresh(hash, input)
    requires i < n && Runs(hash, input, n) && Runs(hash, input, i + 1) && WrittenTo(hash, input, i, id)
    ensures Lookup(At(hash, input, n).rows, id) == Lookup(At(hash, input, i + 1).rows, id)
  {
    forall j | i + 1 <= j < n ensures !WrittenTo(hash, input, j, id) {
      if WrittenTo(hash, input, j, id) {
        OnlyWrite(hash, input, i, j, id);
      }
    }
    KeptAfter(hash, input, i + 1, n, id);
  }

  /** After any later part of the run the row of a written observation shows it: its
      booking date and every field it carries, with its values. Of an updated row every
      other field is the stored one; a new row has no other field. */
  lemma {:induction false} ContentsOfWritten(hash: Hash, input: PlanInput, i: nat, n: nat, id: string)
    requires CollisionFree(hash) && ScopeFresh(hash, input)
    requires i < n && Runs(hash, input, n) && WrittenTo(hash, input, i, id)
    ensures id in At(hash, input, n).rows
    ensures var row, o := At(hash, input, n).rows[id], input.observations[i];
      && Shows(row, o)
      && (id in input.rows ==> Retains(row, input.rows[id], o))
      && (id !in input.rows ==> row.rest.Keys == o.rest.Keys && row.account == o.account)
      && row.canonicalId == DecisionAt(hash, input, i).canonicalId
  {
    AsStored(hash, input, i, id);
    ContentsAtWrite(hash, input, i, id);
    KeptSinceWrite(hash, input, i, n, id);
  }

  lemma {:induction false} WrittenIsObserved(hash: Hash, input: PlanInput, i: nat, n: nat, id: string)
    requires i < n && Runs(hash, input, n) && WrittenTo(hash, input, i, id)
    ensures id in At(hash, input, n).observed
    decreases n
  {
    Step(hash, input, n);
    ApplyObserves(input, At(hash, input, n - 1), input.observations[n - 1], DecisionAt(hash, input, n - 1), id);
    if i < n - 1 {
      WrittenIsObserved(hash, input, i, n - 1, id);
    }
  }

  lemma {:induction false} ObservedWasWritten(hash: Hash, input: PlanInput, n: nat, id: string) returns (i: nat)
    requires Runs(hash, input, n) && id in At(hash, input, n).observed
    ensures i < n && WrittenTo(hash, input, i, id)
  {
    Step(hash, input, n);
    ApplyObserves(input, At(hash, input, n - 1), input.observations[n - 1], DecisionAt(hash, input, n - 1), id);
    if id in At(hash, input, n - 1).observed {
      i := ObservedWasWritten(hash, input, n - 1, id);
    } else {
      i := n - 1;
    }
  }

  /** Exactly the written rows are marked observed. */
  lemma {:induction false} ObservedExactly(hash: Hash, input: PlanInput, n: nat, id: string)
    requires Runs(hash, input, n)
    ensures id in At(hash, input, n).observed <==> exists i :: 0 <= i < n && WrittenTo(hash, input, i, id)
  {
    if id in At(hash, input, n).observed {
      var i := ObservedWasWritten(hash, input, n, id);
    }
    if i :| 0 <= i < n && WrittenTo(hash, input, i, id) {
      WrittenIsObserved(hash, input, i, n, id);
    }
  }

  lemma {:induction false} ApplyObserves(input: PlanInput, st: PlanState, o: Observation, d: Decision, id: string)
    requires Apply(input, st, o, d).Ok?
    ensures id in Apply(input, st, o, d).value.observed <==> id in st.observed || (d.Written? && d.txId == id)
  {
  }

  // ----------------------------------------------------- references recorded

  predicate Bears(o: Observation, k: CanonicalKey) {
    HasBankReference(o) && BankKey(o) == k
  }

  /** No other observation of the batch, and no row but `id`, stored or so far, has the
      bank reference. */
  ghost predicate AloneWith(input: PlanInput, rows: map<string, TxData>, i: nat, k: CanonicalKey, allowed: set<string>) {
    && (forall j :: 0 <= j < |input.observations| && j != i ==> !Bears(input.observations[j], k))
    && (forall id :: id in input.rows && RowKey(input.rows[id]) == k ==> id in allowed)
    && (forall id :: id in rows && RowKey(rows[id]) == k ==> id in allowed)
  }

  lemma {:induction false} CountZero(observations: seq<Observation>, k: CanonicalKey, n: nat)
    requires n <= |observations|
    ensures BankCount(observations, k, n) == 0 <==> forall j :: 0 <= j < n ==> !Bears(observations[j], k)
  {
    if n > 0 {
      CountZero(observations, k, n - 1);
    }
  }

  lemma {:induction false} CountOne(observations: seq<Observation>, k: CanonicalKey, i: nat, n: nat)
    requires i < n <= |observations| && Bears(observations[i], k)
    ensures BankCount(observations, k, n) >= 1
    ensures BankCount(observations, k, n) == 1 <==> forall j :: 0 <= j < n && j != i ==> !Bears(observations[j], k)
  {
    if i == n - 1 {
      CountZero(observations, k, n - 1);
    } else {
      CountOne(observations, k, i, n - 1);
    }
  }

  lemma {:induction false} FreeIsAlone(input: PlanInput, rows: map<string, TxData>, i: nat, allowed: set<string>)
    requires i < |input.observations| && HasBankReference(input.observations[i])
    ensures ReferenceFree(input, rows, input.observations[i], allowed)
            <==> AloneWith(input, rows, i, BankKey(input.observations[i]), allowed)
  {
    CountOne(input.observations, BankKey(input.observations[i]), i, |input.observations|);
  }

  /** What is written for an observation with a bank reference. */
  lemma {:induction false} ReferenceDecided(hash: Hash, input: PlanInput, st: PlanState, i: nat)
    requires i < |input.observations| && HasBankReference(input.observations[i]) && Decide(hash, input, st, i).Written?
    ensures var o, d := input.observations[i], Decide(hash, input, st, i);
      && d.update == Declares(o)
      && (Declares(o) ==> (d.canonicalId == o.providerTransactionId.value <==>
            ReferenceFree(input, st.rows, o, {d.txId}) || o.existingCanonicalId == o.providerTransactionId))
      && (!Declares(o) ==> (d.canonicalId == o.providerTransactionId.value <==>
            ReferenceFree(input, st.rows, o, {}) && BankTxId(hash, input, o) !in st.rows))
  {
    OccurrenceIdIsNotBank(OccurrenceRow(hash, input, input.observations[i]));
  }

  /** Exactly when the row of a written observation carries its bank reference in the end:
      an updated row when nothing else in the batch or the rows has it (or it was declared
      under it), a new row when nothing at all has it and its own row id is free. */
  lemma {:induction false} RecordsReferenceExactly(hash: Hash, input: PlanInput, i: nat, n: nat, id: string)
    requires CollisionFree(hash) && ScopeFresh(hash, input)
    requires i < n && Runs(hash, input, n) && WrittenTo(hash, input, i, id) && HasBankReference(input.observations[i])
    ensures id in At(hash, input, n).rows
    ensures var o, rows := input.observations[i], At(hash, input, i).rows;
      At(hash, input, n).rows[id].canonicalId == o.providerTransactionId.value <==>
        if Declares(o)
        then AloneWith(input, rows, i, BankKey(o), {id}) || o.existingCanonicalId == o.providerTransactionId
        else AloneWith(input, rows, i, BankKey(o), {}) && BankTxId(hash, input, o) !in rows
  {
    ContentsOfWritten(hash, input, i, n, id);
    ReferenceDecided(hash, input, At(hash, input, i), i);
    FreeIsAlone(input, At(hash, input, i).rows, i, {id});
    FreeIsAlone(input, At(hash, input, i).rows, i, {});
  }

  // ------------------------------------------------------------------ refusals

  /** An observation is dropped exactly when it has no claim yet and its declared update is
      not honoured, or it carries neither a declaration nor a bank reference and is older
      than the floor, or no identity is left for it. */
  lemma {:induction false} DropsExactly(hash: Hash, input: PlanInput, i: nat)
    requires i < |input.observations| && Runs(hash, input, i + 1)
    ensures Runs(hash, input, i)
    ensures var o, st, d := input.observations[i], At(hash, input, i), DecisionAt(hash, input, i);
      && (d == Dropped(RejectedClaim) <==>
            !Claimed(st.ledger, o.occurrenceId) && Declares(o) && !Accepted(SnapshotOf(input), ClaimKey(o)))
      && (d == Dropped(BeforeFloor) <==>
            && !Claimed(st.ledger, o.occurrenceId) && !Declares(o) && !IsBankProvidedId(o.providerTransactionId)
            && Utf16Order.Less(o.bookingDate, input.floorDate))
      && (d.Dropped? ==> d.cause in {RejectedClaim, BeforeFloor, NoIdentity})
  {
    Step(hash, input, i + 1);
  }

  /** A claim, if there is one, names an existing row. */
  predicate ClaimHolds(st: PlanState, occurrence: string) {
    Claimed(st.ledger, occurrence) ==> st.ledger[occurrence] in st.rows
  }

  /** Observation i can be taken: its occurrence is new in the batch, and its claim, if it
      has one by then, names an existing row. */
  ghost predicate CanBeTaken(hash: Hash, input: PlanInput, i: nat) {
    && i < |input.observations| && Runs(hash, input, i)
    && (forall j :: 0 <= j < i ==> input.observations[j].occurrenceId != input.observations[i].occurrenceId)
    && ClaimHolds(At(hash, input, i), input.observations[i].occurrenceId)
  }

  lemma {:induction false} TakenExactly(hash: Hash, input: PlanInput, i: nat)
    requires i < |input.observations| && Runs(hash, input, i)
    ensures Runs(hash, input, i + 1) <==> CanBeTaken(hash, input, i)
  {
    SeenExactly(hash, input, i);
  }

  /** A promotion throws exactly at an observation that cannot be taken. */
  lemma {:induction false} ThrowsExactly(hash: Hash, input: PlanInput, n: nat)
    requires n <= |input.observations|
    ensures Runs(hash, input, n) ==> forall i :: 0 <= i < n ==> CanBeTaken(hash, input, i)
    ensures !Runs(hash, input, n) ==> exists i :: 0 <= i < n && Runs(hash, input, i) && !CanBeTaken(hash, input, i)
  {
    if Runs(hash, input, n) {
      forall i | 0 <= i < n ensures CanBeTaken(hash, input, i) {
        Prefix(hash, input, i, n);
        Prefix(hash, input, i + 1, n);
        TakenExactly(hash, input, i);
      }
    } else {
      var i := FirstRefused(hash, input, n);
    }
  }

  lemma {:induction false} FirstRefused(hash: Hash, input: PlanInput, n: nat) returns (i: nat)
    requires n <= |input.observations| && !Runs(hash, input, n)
    ensures i < n && Runs(hash, input, i) && !CanBeTaken(hash, input, i)
  {
    if Runs(hash, input, n - 1) {
      TakenExactly(hash, input, n - 1);
      i := n - 1;
    } else {
      i := FirstRefused(hash, input, n - 1);
    }
  }
}
