/** Exactly which stored rows and approved targets can end up with a bank reference on
    two rows, whatever batch is promoted onto them. */
module ReferenceUniqueness {
  import opened Basics
  import opened TxIdentity
  import opened PromotionSpec
  import opened PlannerTheorems

  // -------------------------------------------------- one write of one run

  /** An update that keeps its declared bank reference although another row carries it
      by now: the one case in which the loop does not consult the index. */
  ghost predicate KeepsTakenReference(hash: Hash, input: PlanInput, i: nat) {
    i < |input.observations| && Runs(hash, input, i) &&
    var st, o, d := At(hash, input, i), input.observations[i], DecisionAt(hash, input, i);
    d.Written? && d.update && d.canonicalId == o.existingCanonicalId.value && BankReference(ClaimKey(o))
    && !(Owners(st.rows, ClaimKey(o)) <= {d.txId})
  }

  lemma {:induction false} WriteKeepsSingleExactly(rows: map<string, TxData>, id: string, data: TxData)
    requires SingleOwners(rows)
    ensures SingleOwners(rows[id := data]) <==> !BankReference(RowKey(data)) || Owners(rows, RowKey(data)) <= {id}
  {
    var after, key := rows[id := data], RowKey(data);
    forall k | BankReference(k) && (k != key || Owners(rows, k) <= {id}) ensures |Owners(after, k)| <= 1 {
      OwnersAfterWrite(rows, id, data, k);
      SubsetSize(Owners(after, k), if k == key then {id} else Owners(rows, k));
    }
    OwnersAfterWrite(rows, id, data, key);
    if !(Owners(rows, key) <= {id}) {
      var other :| other in Owners(rows, key) && other != id;
      SubsetSize({id, other}, Owners(after, key));
    }
  }

  /** The reference a write puts on its row, and when somebody else has it. */
  lemma {:induction false} WrittenReferenceExactly(hash: Hash, input: PlanInput, i: nat)
    requires CollisionFree(hash) && ScopeFresh(hash, input)
    requires i < |input.observations| && Runs(hash, input, i) && DecisionAt(hash, input, i).Written?
    ensures var st, d := At(hash, input, i), DecisionAt(hash, input, i);
      var k := RowKey(Merge(Lookup(st.rows, d.txId), input.observations[i], d.canonicalId));
      (BankReference(k) && !(Owners(st.rows, k) <= {d.txId})) <==> KeepsTakenReference(hash, input, i)
  {
    var st, o, d := At(hash, input, i), input.observations[i], DecisionAt(hash, input, i);
    if d.update {
      UpdatesOnly(hash, input, i);
      AccountsKept(hash, input, i, ClaimKey(o));
      UpdateKeepsAccount(hash, input, st, i, ClaimKey(o));
    } else {
      FreshRow(hash, input, i);
      OccurrenceIdIsNotBank(OccurrenceRow(hash, input, o));
    }
  }

  lemma {:induction false} StepUniqueExactly(hash: Hash, input: PlanInput, n: nat)
    requires CollisionFree(hash) && ScopeFresh(hash, input) && Runs(hash, input, n + 1) && Runs(hash, input, n)
    requires SingleOwners(At(hash, input, n).rows)
    ensures SingleOwners(At(hash, input, n + 1).rows) <==> !KeepsTakenReference(hash, input, n)
  {
    Step(hash, input, n + 1);
    var st, d := At(hash, input, n), DecisionAt(hash, input, n);
    if d.Written? {
      WrittenReferenceExactly(hash, input, n);
      WriteKeepsSingleExactly(st.rows, d.txId, Merge(Lookup(st.rows, d.txId), input.observations[n], d.canonicalId));
    }
  }

  /** A run that ends with a shared reference took it at some observation. */
  lemma {:induction false} SharedWasTaken(hash: Hash, input: PlanInput, n: nat) returns (i: nat)
    requires CollisionFree(hash) && ScopeFresh(hash, input) && SingleOwners(input.rows)
    requires Runs(hash, input, n) && !SingleOwners(At(hash, input, n).rows)
    ensures i < n && KeepsTakenReference(hash, input, i)
  {
    Prefix(hash, input, n - 1, n);
    if SingleOwners(At(hash, input, n - 1).rows) {
      StepUniqueExactly(hash, input, n - 1);
      i := n - 1;
    } else {
      i := SharedWasTaken(hash, input, n - 1);
    }
  }

  /** Promoting these observations throws or leaves every bank reference on one row. */
  ghost predicate EndsUnique(hash: Hash, input: PlanInput, observations: seq<Observation>) {
    var b := input.(observations := observations);
    Runs(hash, b, |observations|) ==> SingleOwners(At(hash, b, |observations|).rows)
  }

  // ------------------------------------------------ rows and targets alone

  /** The key approves exactly one row, which is stored under the key's account and can
      be written. */
  predicate Approves(input: PlanInput, k: CanonicalKey, t: string) {
    && k in input.targets && input.targets[k] == {t}
    && t in input.rows && t != "" && KeyAccount(input.rows[t].account) == k.account
    && k.canonicalId != ""
  }

  /** The approved row no longer carries the bank reference it was sent under. */
  ghost predicate Drifted(input: PlanInput, k: CanonicalKey, t: string) {
    BankReference(k) && Approves(input, k, t) && RowKey(input.rows[t]) != k
  }

  /** The row id a new row with this bank reference gets. */
  function ReferenceRow(hash: Hash, input: PlanInput, k: CanonicalKey): string {
    TransactionId(hash, hash([input.connectionId, k.account]), k.canonicalId)
  }

  /** Some row other than t carries the reference, or a batch can put it on one: on its
      own new row, or on the row another approved update of the account names. */
  ghost predicate CanBeCarriedElsewhere(hash: Hash, input: PlanInput, k: CanonicalKey, t: string) {
    || Owners(input.rows, k) != {}
    || ReferenceRow(hash, input, k) !in input.rows
    || AnotherUpdate(input, k, t)
  }

  ghost predicate AnotherUpdate(input: PlanInput, k: CanonicalKey, t: string) {
    exists other, row :: Approves(input, other, row) && other.account == k.account && row != t
  }

  ghost predicate Exposed(hash: Hash, input: PlanInput, k: CanonicalKey) {
    exists t :: Drifted(input, k, t) && CanBeCarriedElsewhere(hash, input, k, t)
  }

  // ------------------------------------------------- a shared reference needs one

  lemma {:induction false} HonouredIsApproved(hash: Hash, input: PlanInput, i: nat)
    requires i < |input.observations| && Runs(hash, input, i)
    requires DecisionAt(hash, input, i).Written? && DecisionAt(hash, input, i).update
    ensures Declares(input.observations[i])
    ensures Approves(input, ClaimKey(input.observations[i]), DecisionAt(hash, input, i).txId)
  {
  }

  /** The reference observation i writes onto its row. */
  ghost predicate WritesReference(hash: Hash, input: PlanInput, i: nat, id: string, k: CanonicalKey) {
    i < |input.observations| && Runs(hash, input, i) && DecisionAt(hash, input, i).Written? &&
    var d := DecisionAt(hash, input, i);
    d.txId == id && RowKey(Merge(Lookup(At(hash, input, i).rows, id), input.observations[i], d.canonicalId)) == k
  }

  lemma {:induction false} GainedByWrite(hash: Hash, input: PlanInput, n: nat, id: string, k: CanonicalKey) returns (j: nat)
    requires Runs(hash, input, n) && id in Owners(At(hash, input, n).rows, k) && id !in Owners(input.rows, k)
    ensures j < n && WritesReference(hash, input, j, id, k)
  {
    Step(hash, input, n);
    if id in Owners(At(hash, input, n - 1).rows, k) {
      j := GainedByWrite(hash, input, n - 1, id, k);
    } else {
      j := n - 1;
    }
  }

  /** Somebody else gaining a bank reference proves that no stored row had it, and that a
      batch can put it elsewhere. */
  lemma {:induction false} GainedElsewhere(hash: Hash, input: PlanInput, j: nat, id: string, k: CanonicalKey, t: string)
    requires CollisionFree(hash) && ScopeFresh(hash, input)
    requires WritesReference(hash, input, j, id, k) && BankReference(k) && id !in Owners(input.rows, k)
    requires Approves(input, k, t) && id != t
    ensures Owners(input.rows, k) == {}
    ensures ReferenceRow(hash, input, k) !in input.rows || AnotherUpdate(input, k, t)
  {
    var st, o, d := At(hash, input, j), input.observations[j], DecisionAt(hash, input, j);
    if d.update {
      HonouredIsApproved(hash, input, j);
      UpdatesOnly(hash, input, j);
      AccountsKept(hash, input, j, ClaimKey(o));
      UpdateKeepsAccount(hash, input, st, j, ClaimKey(o));
      assert k.account == ClaimKey(o).account;
      assert ClaimKey(o) != k;
    } else {
      FreshRow(hash, input, j);
      Conservation(hash, input, j);
      OccurrenceIdIsNotBank(OccurrenceRow(hash, input, o));
    }
  }

  lemma {:induction false} TakenIsExposed(hash: Hash, input: PlanInput, i: nat)
    requires CollisionFree(hash) && ScopeFresh(hash, input) && SingleOwners(input.rows)
    requires KeepsTakenReference(hash, input, i)
    ensures Exposed(hash, input, ClaimKey(input.observations[i]))
  {
    var k, t := ClaimKey(input.observations[i]), DecisionAt(hash, input, i).txId;
    HonouredIsApproved(hash, input, i);
    var other :| other in Owners(At(hash, input, i).rows, k) && other != t;
    if other in Owners(input.rows, k) {
      if t in Owners(input.rows, k) {
        SubsetSize({t, other}, Owners(input.rows, k));
      }
    } else {
      var j := GainedByWrite(hash, input, i, other, k);
      GainedElsewhere(hash, input, j, other, k, t);
    }
    assert Drifted(input, k, t) && CanBeCarriedElsewhere(hash, input, k, t);
  }

  // ---------------------------------------------- an exposed key has a batch

  /** The fields of an observation that play no part in its identity. */
  datatype Body = Body(bookingDate: string, rest: map<string, string>)

  /** An update of the row approved under k that brings no reference of its own. */
  function PlainUpdate(account: Option<string>, k: CanonicalKey, occurrence: string, body: Body): Observation {
    Observation(account, None, Some(k.canonicalId), occurrence, body.bookingDate, body.rest)
  }

  /** A new transaction with the bank reference of k. */
  function NewWithReference(account: Option<string>, k: CanonicalKey, occurrence: string, body: Body): Observation {
    Observation(account, Some(k.canonicalId), None, occurrence, body.bookingDate, body.rest)
  }

  /** An update of the row approved under `other` that brings the bank reference of k. */
  function MovingUpdate(account: Option<string>, other: CanonicalKey, k: CanonicalKey, occurrence: string, body: Body): Observation {
    Observation(account, Some(k.canonicalId), Some(other.canonicalId), occurrence, body.bookingDate, body.rest)
  }

  ghost predicate Unclaimed(input: PlanInput, occurrence: string) {
    occurrence !in input.ledger
  }

  function Xs(n: nat): (s: string)
    ensures |s| == n
  {
    seq(n, _ => 'x')
  }

  lemma {:induction false} LongerThanAll(s: set<string>) returns (n: nat)
    ensures forall x :: x in s ==> |x| < n
  {
    if s == {} {
      n := 0;
    } else {
      var x :| x in s;
      var m := LongerThanAll(s - {x});
      n := if |x| < m then m else |x| + 1;
    }
  }

  lemma {:induction false} FreshOccurrences(input: PlanInput) returns (x: string, y: string)
    ensures x != y && x != "" && y != "" && Unclaimed(input, x) && Unclaimed(input, y)
  {
    var n := LongerThanAll(input.ledger.Keys);
    x, y := Xs(n + 1), Xs(n + 2);
  }

  /** A declared key is honoured when it alone names its row. */
  lemma {:induction false} HonouredAlone(input: PlanInput, k: CanonicalKey, t: string, i: nat)
    requires Approves(input, k, t) && i < |input.observations|
    requires Positions(input.observations, k, |input.observations|) == {i}
    requires forall p :: 0 <= p < |input.observations| && p != i && Declares(input.observations[p]) ==>
               var other := ClaimKey(input.observations[p]);
               other in input.targets ==> t !in input.targets[other]
    ensures Accepted(SnapshotOf(input), k) && Target(SnapshotOf(input), k) == t
  {
    var s := SnapshotOf(input);
    assert Only(s.targets[k]) == t;
    forall other | Eligible(s, other) && Target(s, other) == t ensures other == k {
      var p :| p in Positions(s.claims, other, |s.claims|);
      assert Only(s.targets[other]) in s.targets[other];
    }
  }

  /** The last observation, a plain update, puts k on t: shared if another row has it. */
  lemma {:induction false} UpdateShares(hash: Hash, input: PlanInput, n: nat, k: CanonicalKey, t: string, occurrence: string, other: string, body: Body)
    requires |input.observations| == n + 1 && Runs(hash, input, n)
    requires Approves(input, k, t) && BankReference(k)
    requires input.observations[n] == PlainUpdate(input.rows[t].account, k, occurrence, body)
    requires occurrence !in At(hash, input, n).seen && occurrence !in At(hash, input, n).ledger
    requires Accepted(SnapshotOf(input), k) && Target(SnapshotOf(input), k) == t
    requires Lookup(At(hash, input, n).rows, t) == Some(input.rows[t])
    requires other != t && other in Owners(At(hash, input, n).rows, k)
    ensures Runs(hash, input, n + 1) && !SingleOwners(At(hash, input, n + 1).rows)
  {
    PlainUpdateDecision(hash, input, At(hash, input, n), n, k, t, occurrence, body);
    var rows := At(hash, input, n + 1).rows;
    assert rows == At(hash, input, n).rows[t := Merge(Some(input.rows[t]), input.observations[n], k.canonicalId)];
    TwoOwners(rows, k, t, other);
  }

  lemma {:induction false} PlainUpdateDecision(hash: Hash, input: PlanInput, st: PlanState, n: nat, k: CanonicalKey, t: string, occurrence: string, body: Body)
    requires n < |input.observations| && Approves(input, k, t)
    requires input.observations[n] == PlainUpdate(input.rows[t].account, k, occurrence, body)
    requires occurrence !in st.seen && occurrence !in st.ledger
    requires Accepted(SnapshotOf(input), k) && Target(SnapshotOf(input), k) == t
    ensures Decide(hash, input, st, n) == Written(t, k.canonicalId, true)
  {
    assert ClaimKey(input.observations[n]) == k;
  }

  lemma {:induction false} TwoOwners(rows: map<string, TxData>, k: CanonicalKey, a: string, b: string)
    requires BankReference(k) && a in Owners(rows, k) && b in Owners(rows, k) && a != b
    ensures !SingleOwners(rows)
  {
    SubsetSize({a, b}, Owners(rows, k));
  }

  /** Another stored row has the reference: one plain update shares it. */
  lemma {:induction false} SharesWithStored(hash: Hash, input: PlanInput, k: CanonicalKey, t: string, x: string, body: Body)
    requires Drifted(input, k, t) && Owners(input.rows, k) != {} && Unclaimed(input, x)
    ensures !EndsUnique(hash, input, [PlainUpdate(input.rows[t].account, k, x, body)])
  {
    var b := input.(observations := [PlainUpdate(input.rows[t].account, k, x, body)]);
    assert Positions(b.observations, k, 1) == {0};
    HonouredAlone(b, k, t, 0);
    assert Run(hash, b, 0) == Ok(Initial(b));
    var other :| other in Owners(input.rows, k);
    UpdateShares(hash, b, 0, k, t, x, other, body);
  }

  /** Two observations: the first puts k on a row other than t, then the plain update. */
  lemma {:induction false} SharesWithFirst(hash: Hash, b: PlanInput, k: CanonicalKey, t: string, x: string, y: string, other: string, update: bool, body: Body)
    requires BankReference(k) && Approves(b, k, t) && x != y && Unclaimed(b, y)
    requires |b.observations| == 2 && b.observations[0].occurrenceId == x
    requires b.observations[1] == PlainUpdate(b.rows[t].account, k, y, body)
    requires Decide(hash, b, Initial(b), 0) == Written(other, k.canonicalId, update) && other != t
    requires RowKey(Merge(Lookup(b.rows, other), b.observations[0], k.canonicalId)) == k
    requires Accepted(SnapshotOf(b), k) && Target(SnapshotOf(b), k) == t
    ensures Runs(hash, b, 2) && !SingleOwners(At(hash, b, 2).rows)
  {
    assert Run(hash, b, 0) == Ok(Initial(b));
    assert Runs(hash, b, 1);
    UpdateShares(hash, b, 1, k, t, y, other, body);
  }

  lemma {:induction false} CountOfTwo(observations: seq<Observation>, k: CanonicalKey)
    requires |observations| == 2 && !HasBankReference(observations[1])
    ensures BankCount(observations, k, 2) <= 1
  {
    assert BankCount(observations, k, 0) == 0;
    assert BankCount(observations, k, 1) <= 1;
  }

  /** Nobody has the reference and its own row is free: a new transaction takes it. */
  lemma {:induction false} SharesWithNew(hash: Hash, input: PlanInput, k: CanonicalKey, t: string, x: string, y: string, body: Body)
    requires Drifted(input, k, t) && Owners(input.rows, k) == {} && ReferenceRow(hash, input, k) !in input.rows
    requires x != y && Unclaimed(input, x) && Unclaimed(input, y)
    ensures var a := input.rows[t].account;
      !EndsUnique(hash, input, [NewWithReference(a, k, x, body), PlainUpdate(a, k, y, body)])
  {
    var a := input.rows[t].account;
    var b := input.(observations := [NewWithReference(a, k, x, body), PlainUpdate(a, k, y, body)]);
    assert Positions(b.observations, k, 2) == {1};
    HonouredAlone(b, k, t, 1);
    CountOfTwo(b.observations, k);
    var o := b.observations[0];
    assert BankKey(o) == k && BankTxId(hash, b, o) == ReferenceRow(hash, input, k);
    assert ReferenceFree(b, b.rows, o, {});
    SharesWithFirst(hash, b, k, t, x, y, ReferenceRow(hash, input, k), false, body);
  }

  /** Nobody has the reference: another approved update brings it to its own row. */
  lemma {:induction false} SharesWithUpdate(hash: Hash, input: PlanInput, k: CanonicalKey, t: string, k2: CanonicalKey, t2: string, x: string, y: string, body: Body)
    requires Drifted(input, k, t) && Owners(input.rows, k) == {}
    requires Approves(input, k2, t2) && k2.account == k.account && t2 != t
    requires x != y && Unclaimed(input, x) && Unclaimed(input, y)
    ensures var a := input.rows[t].account;
      !EndsUnique(hash, input, [MovingUpdate(a, k2, k, x, body), PlainUpdate(a, k, y, body)])
  {
    var a := input.rows[t].account;
    var b := input.(observations := [MovingUpdate(a, k2, k, x, body), PlainUpdate(a, k, y, body)]);
    assert Positions(b.observations, k, 2) == {1} && Positions(b.observations, k2, 2) == {0};
    HonouredAlone(b, k, t, 1);
    HonouredAlone(b, k2, t2, 0);
    CountOfTwo(b.observations, k);
    var o := b.observations[0];
    assert BankKey(o) == k && ReferenceFree(b, b.rows, o, {t2});
    SharesWithFirst(hash, b, k, t, x, y, t2, true, body);
  }

  // ------------------------------------------------------------- the theorem

  /** The batch has one or two observations, with whatever further fields one likes. */
  lemma {:induction false} ExposedBreaks(hash: Hash, input: PlanInput, k: CanonicalKey, body: Body) returns (observations: seq<Observation>)
    requires Exposed(hash, input, k)
    ensures !EndsUnique(hash, input, observations) && |observations| <= 2
    ensures forall o :: o in observations ==> o.occurrenceId != "" && Body(o.bookingDate, o.rest) == body
  {
    var t :| Drifted(input, k, t) && CanBeCarriedElsewhere(hash, input, k, t);
    var a := input.rows[t].account;
    var x, y := FreshOccurrences(input);
    if Owners(input.rows, k) != {} {
      SharesWithStored(hash, input, k, t, x, body);
      observations := [PlainUpdate(a, k, x, body)];
    } else if ReferenceRow(hash, input, k) !in input.rows {
      SharesWithNew(hash, input, k, t, x, y, body);
      observations := [NewWithReference(a, k, x, body), PlainUpdate(a, k, y, body)];
    } else {
      var k2, t2 :| Approves(input, k2, t2) && k2.account == k.account && t2 != t;
      SharesWithUpdate(hash, input, k, t, k2, t2, x, y, body);
      observations := [MovingUpdate(a, k2, k, x, body), PlainUpdate(a, k, y, body)];
    }
  }

  lemma {:induction false} SharingExposes(hash: Hash, input: PlanInput, observations: seq<Observation>) returns (k: CanonicalKey)
    requires CollisionFree(hash) && ScopeFresh(hash, input) && SingleOwners(input.rows)
    requires !EndsUnique(hash, input, observations)
    ensures Exposed(hash, input, k)
  {
    var b := input.(observations := observations);
    var i := SharedWasTaken(hash, b, |observations|);
    TakenIsExposed(hash, b, i);
    k := ClaimKey(observations[i]);
    var t :| Drifted(b, k, t) && CanBeCarriedElsewhere(hash, b, k, t);
    if AnotherUpdate(b, k, t) {
      var k2, t2 :| Approves(b, k2, t2) && k2.account == k.account && t2 != t;
      assert Approves(input, k2, t2);
    }
    assert Drifted(input, k, t) && CanBeCarriedElsewhere(hash, input, k, t);
  }

  /** With bank references unique before, every batch leaves them unique if and only if no
      approved row drifted from a bank reference that is, or can be put, elsewhere. The
      condition reads only the stored rows and the approved targets. */
  lemma {:induction false} UniqueAfterwardsExactly(hash: Hash, input: PlanInput)
    requires CollisionFree(hash) && ScopeFresh(hash, input) && SingleOwners(input.rows)
    ensures (forall observations :: EndsUnique(hash, input, observations)) <==> (forall k :: !Exposed(hash, input, k))
  {
    if k :| Exposed(hash, input, k) {
      var observations := ExposedBreaks(hash, input, k, Body("2026-01-01", map[]));
    }
    if observations :| !EndsUnique(hash, input, observations) {
      var k := SharingExposes(hash, input, observations);
    }
  }
}
