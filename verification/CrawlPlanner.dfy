/** The specification of one promotion: how a batch of observed transactions is
    folded into the stored rows, one observation at a time. */
module PromotionSpec {
  import opened Basics
  import opened TxIdentity
  import Utf16Order

  datatype PlanInput = PlanInput(
    connectionId: string,
    scopeId: string,
    observations: seq<Observation>,
    rows: map<string, TxData>,
    targets: map<CanonicalKey, set<string>>,
    ledger: map<string, string>,
    floorDate: string)

  datatype PlanError = RepeatedOccurrence | DanglingClaim

  datatype PlanState = PlanState(
    rows: map<string, TxData>,
    ledger: map<string, string>,
    seen: set<string>,
    observed: set<string>,
    stored: nat,
    added: nat,
    modified: nat,
    dropped: nat,
    newest: Option<string>)

  datatype DropCause = RejectedClaim | BeforeFloor | NoIdentity

  datatype Decision =
    | Fails(error: PlanError)
    | Replayed
    | Dropped(cause: DropCause)
    | Written(txId: string, canonicalId: string, update: bool)

  function SnapshotOf(input: PlanInput): Snapshot {
    Snapshot(input.observations, input.targets, input.rows)
  }

  /** The rows that carry a canonical reference. */
  function Owners(rows: map<string, TxData>, key: CanonicalKey): set<string> {
    set id | id in rows && RowKey(rows[id]) == key
  }

  predicate HasBankReference(o: Observation) {
    IsBankProvidedId(o.providerTransactionId)
  }

  function BankKey(o: Observation): CanonicalKey
    requires HasBankReference(o)
  {
    CanonicalUpdateKey(o.account, o.providerTransactionId.value)
  }

  /** How many of the first n observations carry a bank reference. */
  function BankCount(observations: seq<Observation>, key: CanonicalKey, n: nat): nat
    requires n <= |observations|
  {
    if n == 0 then 0
    else
      BankCount(observations, key, n - 1)
      + if HasBankReference(observations[n - 1]) && BankKey(observations[n - 1]) == key then 1 else 0
  }

  /** mergePresentFields: fields present on the observation win, others stay. */
  function Merge(previous: Option<TxData>, o: Observation, canonicalId: string): TxData {
    if previous.None? then TxData(o.account, canonicalId, o.bookingDate, o.rest)
    else
      TxData(if o.account.Some? then o.account else previous.value.account,
             canonicalId, o.bookingDate, previous.value.rest + o.rest)
  }

  function Lookup(rows: map<string, TxData>, id: string): Option<TxData> {
    if id in rows then Some(rows[id]) else None
  }

  /** A ledger entry counts only when it names a row (an empty id is falsy). */
  predicate Claimed(ledger: map<string, string>, occurrenceId: string) {
    occurrenceId in ledger && ledger[occurrenceId] != ""
  }

  function LaterDate(newest: Option<string>, date: string): Option<string> {
    if !Truthy(newest) || Utf16Order.Less(newest.value, date) then Some(date) else newest
  }

  function Initial(input: PlanInput): PlanState {
    PlanState(input.rows, input.ledger, {}, {}, 0, 0, 0, 0, None)
  }

  function BankTxId(hash: Hash, input: PlanInput, o: Observation): string
    requires HasBankReference(o)
  {
    TransactionId(hash, AccountId(hash, input.connectionId, o.account), o.providerTransactionId.value)
  }

  function OccurrenceRow(hash: Hash, input: PlanInput, o: Observation): string {
    OccurrenceTxId(hash, input.connectionId, o.account, input.scopeId, o.occurrenceId)
  }

  /** The bank reference may move onto (or stay on) row t: nobody else in the batch,
      in the frozen rows or in the rows so far carries it. */
  predicate ReferenceFree(input: PlanInput, rows: map<string, TxData>, o: Observation, allowed: set<string>)
    requires HasBankReference(o)
  {
    && BankCount(input.observations, BankKey(o), |input.observations|) <= 1
    && Owners(input.rows, BankKey(o)) <= allowed
    && Owners(rows, BankKey(o)) <= allowed
  }

  /** Where one observation goes, as a decision table over the state so far. */
  ghost function Decide(hash: Hash, input: PlanInput, st: PlanState, i: nat): Decision
    requires i < |input.observations|
  {
    var o := input.observations[i];
    if o.occurrenceId in st.seen then Fails(RepeatedOccurrence)
    else if Claimed(st.ledger, o.occurrenceId) then
      if st.ledger[o.occurrenceId] in st.rows then Replayed else Fails(DanglingClaim)
    else if Declares(o) then
      if !Accepted(SnapshotOf(input), ClaimKey(o)) then Dropped(RejectedClaim)
      else
        var target := Target(SnapshotOf(input), ClaimKey(o));
        if target == "" then Dropped(NoIdentity)
        else
          Written(target,
                  if HasBankReference(o) && ReferenceFree(input, st.rows, o, {target})
                  then o.providerTransactionId.value else o.existingCanonicalId.value,
                  true)
    else if !HasBankReference(o) && Utf16Order.Less(o.bookingDate, input.floorDate) then Dropped(BeforeFloor)
    else if HasBankReference(o) && ReferenceFree(input, st.rows, o, {}) && BankTxId(hash, input, o) !in st.rows then
      Written(BankTxId(hash, input, o), o.providerTransactionId.value, false)
    else if o.occurrenceId != "" && input.scopeId != "" then
      Written(OccurrenceRow(hash, input, o), OCCURRENCE_PREFIX + OccurrenceRow(hash, input, o), false)
    else Dropped(NoIdentity)
  }

  function Apply(input: PlanInput, st: PlanState, o: Observation, d: Decision): Result<PlanState, PlanError> {
    var st' := st.(seen := st.seen + {o.occurrenceId});
    match d
    case Fails(e) => Err(e)
    case Replayed => Ok(st'.(stored := st.stored + 1, newest := LaterDate(st.newest, o.bookingDate)))
    case Dropped(_) => Ok(st'.(dropped := st.dropped + 1))
    case Written(txId, canonicalId, _) =>
      Ok(st'.(rows := st.rows[txId := Merge(Lookup(st.rows, txId), o, canonicalId)],
              ledger := st.ledger[o.occurrenceId := txId],
              observed := st.observed + {txId},
              stored := st.stored + 1,
              added := st.added + (if txId in st.rows then 0 else 1),
              modified := st.modified + (if txId in st.rows then 1 else 0),
              newest := LaterDate(st.newest, o.bookingDate)))
  }

  /** The state after the first n observations. */
  ghost function Run(hash: Hash, input: PlanInput, n: nat): Result<PlanState, PlanError>
    requires n <= |input.observations|
  {
    if n == 0 then Ok(Initial(input))
    else
      var before := Run(hash, input, n - 1);
      if before.Err? then before
      else Apply(input, before.value, input.observations[n - 1], Decide(hash, input, before.value, n - 1))
  }
}

/** planCrawlResults' transaction loop: maps updated in place, with an inverse
    index kept incrementally instead of searched. */
module CrawlPlanner {
  import opened Basics
  import opened TxIdentity
  import opened PromotionSpec
  import Utf16Order

  /** storedById and its inverse rowIdsByCanonical. */
  class CanonicalIndex {
    var storedById: map<string, TxData>
    var rowIdsByCanonical: map<CanonicalKey, set<string>>

    /** The index is exactly the inverse of the rows, with no empty owner set. */
    ghost predicate Valid()
      reads this
    {
      InverseOf(storedById, rowIdsByCanonical)
    }

    constructor (rows: map<string, TxData>)
      ensures Valid() && storedById == rows
    {
      storedById := rows;
      rowIdsByCanonical := map[];
      new;
      var pending := rows.Keys;
      ghost var done: map<string, TxData> := map[];
      while pending != {}
        invariant pending <= rows.Keys && storedById == rows
        invariant done == map id | id in rows && id !in pending :: rows[id]
        invariant InverseOf(done, rowIdsByCanonical)
      {
        var id :| id in pending;
        AddedOwner(done, rowIdsByCanonical, id, rows[id]);
        AddCanonicalOwner(id, rows[id]);
        done, pending := done[id := rows[id]], pending - {id};
      }
      assert done == rows;
    }

    method AddCanonicalOwner(id: string, data: TxData)
      modifies this`rowIdsByCanonical
      ensures rowIdsByCanonical == WithOwner(old(rowIdsByCanonical), RowKey(data), id)
    {
      var key := RowKey(data);
      if key in rowIdsByCanonical {
        rowIdsByCanonical := rowIdsByCanonical[key := rowIdsByCanonical[key] + {id}];
      } else {
        rowIdsByCanonical := rowIdsByCanonical[key := {id}];
        assert {} + {id} == {id};
      }
    }

    method RemoveCanonicalOwner(id: string, data: TxData)
      modifies this`rowIdsByCanonical
      ensures rowIdsByCanonical == WithoutOwner(old(rowIdsByCanonical), RowKey(data), id)
    {
      var key := RowKey(data);
      if key !in rowIdsByCanonical {
        return;
      }
      var owners := rowIdsByCanonical[key] - {id};
      rowIdsByCanonical := rowIdsByCanonical[key := owners];
      if |owners| == 0 {
        rowIdsByCanonical := rowIdsByCanonical - {key};
      }
    }

    method ReplaceStoredIndex(id: string, data: TxData)
      requires Valid()
      modifies this
      ensures Valid() && storedById == old(storedById)[id := data]
    {
      ghost var rest := storedById - {id};
      if id in storedById {
        RemovedOwner(storedById, rowIdsByCanonical, id);
        RemoveCanonicalOwner(id, storedById[id]);
      } else {
        assert rest == storedById;
      }
      AddedOwner(rest, rowIdsByCanonical, id, data);
      storedById := storedById[id := data];
      AddCanonicalOwner(id, data);
      assert storedById == rest[id := data];
    }
  }

  ghost predicate InverseOf(rows: map<string, TxData>, index: map<CanonicalKey, set<string>>) {
    && (forall k :: k in index <==> Owners(rows, k) != {})
    && (forall k :: k in index ==> index[k] == Owners(rows, k))
  }

  function WithOwner(index: map<CanonicalKey, set<string>>, key: CanonicalKey, id: string): map<CanonicalKey, set<string>> {
    index[key := OwnersIn(index, key) + {id}]
  }

  function WithoutOwner(index: map<CanonicalKey, set<string>>, key: CanonicalKey, id: string): map<CanonicalKey, set<string>> {
    if key !in index then index
    else if index[key] == {id} || index[key] == {} then index - {key}
    else index[key := index[key] - {id}]
  }

  function OwnersIn(index: map<CanonicalKey, set<string>>, key: CanonicalKey): set<string> {
    if key in index then index[key] else {}
  }

  lemma {:induction false} AddedOwner(rows: map<string, TxData>, index: map<CanonicalKey, set<string>>, id: string, data: TxData)
    requires InverseOf(rows, index) && id !in rows
    ensures InverseOf(rows[id := data], WithOwner(index, RowKey(data), id))
  {
  }

  lemma {:induction false} RemovedOwner(rows: map<string, TxData>, index: map<CanonicalKey, set<string>>, id: string)
    requires InverseOf(rows, index) && id in rows
    ensures InverseOf(rows - {id}, WithoutOwner(index, RowKey(rows[id]), id))
  {
  }

  /** incomingProviderIdCounts. */
  method CountBankReferences(observations: seq<Observation>) returns (counts: map<CanonicalKey, nat>)
    ensures forall k :: CountIn(counts, k) == BankCount(observations, k, |observations|)
  {
    counts := map[];
    for n := 0 to |observations|
      invariant forall k :: CountIn(counts, k) == BankCount(observations, k, n)
    {
      var o := observations[n];
      if HasBankReference(o) {
        counts := counts[BankKey(o) := CountIn(counts, BankKey(o)) + 1];
      }
    }
  }

  function CountIn(counts: map<CanonicalKey, nat>, key: CanonicalKey): nat {
    if key in counts then counts[key] else 0
  }

  /** What one promotion fixes before its loop starts. */
  datatype Frozen = Frozen(
    resolved: map<CanonicalKey, string>,
    droppedClaims: map<nat, DropReason>,
    initialIndex: map<CanonicalKey, set<string>>,
    counts: map<CanonicalKey, nat>)

  ghost predicate FrozenFor(input: PlanInput, f: Frozen) {
    && f.resolved == ResolvedTargets(SnapshotOf(input))
    && f.droppedClaims.Keys == DroppedClaims(SnapshotOf(input))
    && InverseOf(input.rows, f.initialIndex)
    && (forall k :: CountIn(f.counts, k) == BankCount(input.observations, k, |input.observations|))
  }

  /** The source's demotion tests read the indexes; they agree with the rows. */
  lemma {:induction false} DemotionTest(input: PlanInput, f: Frozen, rows: map<string, TxData>, index: map<CanonicalKey, set<string>>,
                     o: Observation, allowed: set<string>)
    requires FrozenFor(input, f) && InverseOf(rows, index) && HasBankReference(o)
    ensures ReferenceFree(input, rows, o, allowed)
      <==> CountIn(f.counts, BankKey(o)) <= 1
           && OwnersIn(f.initialIndex, BankKey(o)) + OwnersIn(index, BankKey(o)) <= allowed
  {
  }

  /** Lines 244-291: the reference an ambiguous observation may still use, whether
      it still counts as an update, and the row it updates. */
  method DemoteReference(input: PlanInput, f: Frozen, index: CanonicalIndex, i: nat)
    returns (reference: Option<string>, existing: Option<string>, target: Option<string>)
    requires index.Valid() && FrozenFor(input, f) && i < |input.observations| && i !in f.droppedClaims
    ensures var o := input.observations[i];
      if Declares(o) then
        && Accepted(SnapshotOf(input), ClaimKey(o))
        && target == Some(Target(SnapshotOf(input), ClaimKey(o)))
        && existing == o.existingCanonicalId
        && reference == if HasBankReference(o) && !ReferenceFree(input, index.storedById, o, {target.value})
                        then None else o.providerTransactionId
      else
        && target == None
        && !Truthy(existing)
        && reference == if HasBankReference(o) && !ReferenceFree(input, index.storedById, o, {})
                        then None else o.providerTransactionId
  {
    var o := input.observations[i];
    reference, existing, target := o.providerTransactionId, o.existingCanonicalId, None;
    if Declares(o) {
      assert i !in DroppedClaims(SnapshotOf(input));
      target := Some(f.resolved[ClaimKey(o)]);
      if HasBankReference(o) {
        DemotionTest(input, f, index.storedById, index.rowIdsByCanonical, o, {target.value});
        var owners := OwnersIn(f.initialIndex, BankKey(o)) + OwnersIn(index.rowIdsByCanonical, BankKey(o));
        if CountIn(f.counts, BankKey(o)) > 1 || owners - {target.value} != {} {
          reference := None;
        }
      }
    }
    if !Truthy(existing) && IsBankProvidedId(reference) {
      DemotionTest(input, f, index.storedById, index.rowIdsByCanonical, o, {});
      if CountIn(f.counts, BankKey(o)) > 1
         || |OwnersIn(f.initialIndex, BankKey(o))| > 0
         || |OwnersIn(index.rowIdsByCanonical, BankKey(o))| > 0 {
        reference, existing := None, None;
      }
    }
  }

  /** Lines 244-319 for an observation that is not dropped outright: demote, assign,
      and fall back to the occurrence when the bank row id is taken. */
  method AssignIdentity(hash: Hash, input: PlanInput, f: Frozen, index: CanonicalIndex, i: nat, ghost st: PlanState)
    returns (identity: Identity)
    requires index.Valid() && FrozenFor(input, f) && i < |input.observations|
    requires st.rows == index.storedById && Unclaimed(st, input.observations[i])
    requires i !in f.droppedClaims && !TooOld(input, input.observations[i])
    ensures identity == Outcome(Decide(hash, input, st, i))
  {
    var o := input.observations[i];
    var reference, existing, target := DemoteReference(input, f, index, i);
    identity := AssignTransactionId(hash, input.connectionId, o.account, reference, existing, o.occurrenceId,
                                    f.resolved.Keys, target, input.scopeId);
    if identity.Assigned? && !Truthy(existing) && IsBankProvidedId(reference) && identity.txId in index.storedById {
      identity := AssignTransactionId(hash, input.connectionId, o.account, None, None, o.occurrenceId,
                                      f.resolved.Keys, None, input.scopeId);
    }
  }

  function Outcome(d: Decision): Identity {
    if d.Written? then Assigned(d.txId, d.canonicalId, d.update) else Unidentified
  }

  predicate Unclaimed(st: PlanState, o: Observation) {
    o.occurrenceId !in st.seen && !Claimed(st.ledger, o.occurrenceId)
  }

  predicate TooOld(input: PlanInput, o: Observation) {
    !Declares(o) && !HasBankReference(o) && Utf16Order.Less(o.bookingDate, input.floorDate)
  }

  /** Lines 231-323: drop a rejected or too old observation, otherwise identify it. */
  method Identify(hash: Hash, input: PlanInput, f: Frozen, index: CanonicalIndex, i: nat, ghost st: PlanState)
    returns (identity: Identity)
    requires index.Valid() && FrozenFor(input, f) && i < |input.observations|
    requires st.rows == index.storedById && Unclaimed(st, input.observations[i])
    ensures identity == Outcome(Decide(hash, input, st, i))
    ensures identity.Unidentified? ==> Decide(hash, input, st, i).Dropped?
  {
    if i in f.droppedClaims {
      assert i in DroppedClaims(SnapshotOf(input));
      return Unidentified;
    }
    if TooOld(input, input.observations[i]) {
      return Unidentified;
    }
    identity := AssignIdentity(hash, input, f, index, i, st);
  }

  /** Lines 334-347: merge, count, re-index and claim the occurrence. */
  method WriteRow(input: PlanInput, index: CanonicalIndex, st: PlanState, o: Observation, identity: Identity)
    returns (st': PlanState)
    requires index.Valid() && index.storedById == st.rows && identity.Assigned?
    modifies index
    ensures index.Valid() && index.storedById == st'.rows
    ensures Ok(st') == Apply(input, st, o, Written(identity.txId, identity.canonicalId, identity.update))
  {
    var previous := Lookup(index.storedById, identity.txId);
    var data := Merge(previous, o, identity.canonicalId);
    var added := if previous.None? then 1 else 0;
    index.ReplaceStoredIndex(identity.txId, data);
    st' := PlanState(index.storedById, st.ledger[o.occurrenceId := identity.txId], st.seen + {o.occurrenceId},
                     st.observed + {identity.txId}, st.stored + 1, st.added + added,
                     st.modified + 1 - added, st.dropped, LaterDate(st.newest, o.bookingDate));
  }

  /** One iteration of the loop (lines 206-348). */
  method PlanOne(hash: Hash, input: PlanInput, f: Frozen, index: CanonicalIndex, st: PlanState, i: nat)
    returns (next: Result<PlanState, PlanError>)
    requires index.Valid() && index.storedById == st.rows && FrozenFor(input, f) && i < |input.observations|
    modifies index
    ensures index.Valid()
    ensures next == Apply(input, st, input.observations[i], Decide(hash, input, st, i))
    ensures next.Ok? ==> index.storedById == next.value.rows
  {
    var o := input.observations[i];
    if o.occurrenceId in st.seen {
      return Err(RepeatedOccurrence);
    }
    if Claimed(st.ledger, o.occurrenceId) {
      if st.ledger[o.occurrenceId] !in index.storedById {
        return Err(DanglingClaim);
      }
      return Ok(st.(seen := st.seen + {o.occurrenceId}, stored := st.stored + 1,
                    newest := LaterDate(st.newest, o.bookingDate)));
    }
    var identity := Identify(hash, input, f, index, i, st);
    if identity.Unidentified? {
      return Ok(st.(seen := st.seen + {o.occurrenceId}, dropped := st.dropped + 1));
    }
    var st' := WriteRow(input, index, st, o, identity);
    return Ok(st');
  }

  /** What is computed once before the loop. */
  method Freeze(input: PlanInput, index: CanonicalIndex) returns (f: Frozen)
    requires index.Valid() && index.storedById == input.rows
    ensures FrozenFor(input, f)
  {
    var resolved, droppedClaims := ResolveUpdateTargets(SnapshotOf(input));
    var counts := CountBankReferences(input.observations);
    f := Frozen(resolved, droppedClaims, index.rowIdsByCanonical, counts);
  }

  /** One iteration takes the specified run one observation further. */
  method PlanNext(hash: Hash, input: PlanInput, f: Frozen, index: CanonicalIndex, st: PlanState, i: nat)
    returns (next: Result<PlanState, PlanError>)
    requires index.Valid() && index.storedById == st.rows && FrozenFor(input, f) && i < |input.observations|
    requires Run(hash, input, i) == Ok(st)
    modifies index
    ensures index.Valid() && next == Run(hash, input, i + 1)
    ensures next.Ok? ==> index.storedById == next.value.rows
  {
    next := PlanOne(hash, input, f, index, st, i);
    RunStep(hash, input, st, i);
  }

  /** The whole promotion of the transactions: the incremental planner computes
      the specified run, including its errors. */
  method PlanTransactions(hash: Hash, input: PlanInput) returns (plan: Result<PlanState, PlanError>)
    ensures plan == Run(hash, input, |input.observations|)
  {
    var index := new CanonicalIndex(input.rows);
    var f := Freeze(input, index);
    var st := Initial(input);
    for i := 0 to |input.observations|
      invariant index.Valid() && index.storedById == st.rows
      invariant Run(hash, input, i) == Ok(st)
    {
      var next := PlanNext(hash, input, f, index, st, i);
      if next.Err? {
        RunFails(hash, input, i + 1);
        return next;
      }
      st := next.value;
    }
    return Ok(st);
  }

  lemma {:induction false} RunStep(hash: Hash, input: PlanInput, st: PlanState, i: nat)
    requires i < |input.observations| && Run(hash, input, i) == Ok(st)
    ensures Run(hash, input, i + 1) == Apply(input, st, input.observations[i], Decide(hash, input, st, i))
  {
  }

  lemma {:induction false} RunFails(hash: Hash, input: PlanInput, n: nat)
    requires n <= |input.observations| && Run(hash, input, n).Err?
    ensures Run(hash, input, |input.observations|) == Run(hash, input, n)
    decreases |input.observations| - n
  {
    if n < |input.observations| {
      RunFails(hash, input, n + 1);
    }
  }
}
