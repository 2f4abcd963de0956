/** Evidence-backed transaction identity and the resolution of declared updates. */
module TxIdentity {
  import opened Basics
  import opened JsText
  import Sorting

  /** One validated crawled transaction. An empty occurrence id stands for an
      absent one; `rest` holds the remaining fields that are present. */
  datatype Observation = Observation(
    account: Option<string>,
    providerTransactionId: Option<string>,
    existingCanonicalId: Option<string>,
    occurrenceId: string,
    bookingDate: string,
    rest: map<string, string>)

  /** The data of a stored transaction row. */
  datatype TxData = TxData(
    account: Option<string>,
    canonicalId: string,
    bookingDate: string,
    rest: map<string, string>)

  /** An account-scoped canonical reference. The source encodes the pair as a JSON
      array, which is injective, so the pair itself is the key. */
  datatype CanonicalKey = CanonicalKey(account: string, canonicalId: string)

  /** SHA-256 over the JSON array of the parts, truncated to an id. */
  type Hash = seq<string> -> string

  const OCCURRENCE_PREFIX := "occurrence:"
  const UNATTRIBUTED_ACCOUNT_KEY := "\0accrawl:unattributed"

  function KeyAccount(account: Option<string>): string {
    if Truthy(account) then account.value else UNATTRIBUTED_ACCOUNT_KEY
  }

  function CanonicalUpdateKey(account: Option<string>, canonicalId: string): CanonicalKey {
    CanonicalKey(KeyAccount(account), canonicalId)
  }

  function RowKey(row: TxData): CanonicalKey {
    CanonicalUpdateKey(row.account, row.canonicalId)
  }

  function AccountId(hash: Hash, connectionId: string, account: Option<string>): string {
    hash([connectionId, KeyAccount(account)])
  }

  function TransactionId(hash: Hash, accountId: string, reference: string): string {
    hash([accountId, reference])
  }

  // ------------------------------------------------------ bank references

  function Upper(s: string): (r: string)
    ensures |r| == |s|
  {
    seq(|s|, i requires 0 <= i < |s| => if 'a' <= s[i] <= 'z' then (s[i] as int - 32) as char else s[i])
  }

  /** A real bank reference: not empty, not NONE and not one of our own ids. */
  predicate IsBankProvidedId(id: Option<string>) {
    Truthy(id) &&
    var normalized := Upper(Trim(id.value));
    normalized != "NONE" && normalized != "" && !("CONTENT:" <= normalized) && !("OCCURRENCE:" <= normalized)
  }

  lemma {:induction false} TrimEndKeeps(s: string, k: nat)
    requires k < |s| && !Whitespace(s[k])
    ensures |TrimEnd(s)| > k && TrimEnd(s)[..k + 1] == s[..k + 1]
  {
    if Whitespace(s[|s| - 1]) {
      TrimEndKeeps(s[..|s| - 1], k);
      assert s[..|s| - 1][..k + 1] == s[..k + 1];
    }
  }

  /** The canonical id minted for an occurrence row is never a bank reference. */
  lemma {:induction false} OccurrenceIdIsNotBank(suffix: string)
    ensures !IsBankProvidedId(Some(OCCURRENCE_PREFIX + suffix))
  {
    var s := OCCURRENCE_PREFIX + suffix;
    assert s[0] == 'o' && TrimStart(s) == s;
    assert s[10] == ':';
    TrimEndKeeps(s, 10);
    assert s[..11] == OCCURRENCE_PREFIX;
    var u := Upper(Trim(s));
    assert Trim(s)[..11] == OCCURRENCE_PREFIX;
    assert u[..11] == "OCCURRENCE:" by {
      assert Upper(OCCURRENCE_PREFIX) == "OCCURRENCE:";
      assert forall i :: 0 <= i < 11 ==> Trim(s)[i] == OCCURRENCE_PREFIX[i] by {
        assert forall i :: 0 <= i < 11 ==> Trim(s)[i] == Trim(s)[..11][i];
      }
      assert forall i :: 0 <= i < 11 ==> u[i] == Upper(OCCURRENCE_PREFIX)[i];
    }
  }

  /** The text spells the capitals, in either case. */
  predicate Spells(s: string, capitals: string) {
    |s| == |capitals| && forall i :: 0 <= i < |s| ==> s[i] == capitals[i] || (s[i] as int == capitals[i] as int + 32 && 'A' <= capitals[i] <= 'Z')
  }

  lemma {:induction false} UpperSpells(s: string, capitals: string)
    requires forall i :: 0 <= i < |capitals| ==> !('a' <= capitals[i] <= 'z')
    ensures Upper(s) == capitals <==> Spells(s, capitals)
    ensures capitals <= Upper(s) <==> |capitals| <= |s| && Spells(s[..|capitals|], capitals)
  {
    if |capitals| <= |s| {
      assert Upper(s)[..|capitals|] == Upper(s[..|capitals|]);
    }
    assert |s| == |capitals| ==> (Upper(s) == capitals <==> forall i :: 0 <= i < |s| ==> Upper(s)[i] == capitals[i]);
    if |capitals| <= |s| {
      var t := s[..|capitals|];
      assert Upper(t) == capitals <==> forall i :: 0 <= i < |t| ==> Upper(t)[i] == capitals[i];
    }
  }

  /** Exactly which references are the bank's own: between the blanks around it there is
      something that is not NONE and does not start with content: or occurrence:, in
      whatever case. */
  lemma {:induction false} BankIdExactly(before: string, core: string, after: string)
    requires Blank(before) && Trimmed(core) && Blank(after)
    ensures IsBankProvidedId(Some(before + core + after)) <==>
      && core != "" && !Spells(core, "NONE")
      && !(|core| >= 8 && Spells(core[..8], "CONTENT:")) && !(|core| >= 11 && Spells(core[..11], "OCCURRENCE:"))
  {
    TrimAround(before, core, after);
    UpperSpells(core, "NONE");
    UpperSpells(core, "CONTENT:");
    UpperSpells(core, "OCCURRENCE:");
  }

  // ----------------------------------------------- assigning one identity

  datatype Identity =
    | Assigned(txId: string, canonicalId: string, update: bool)
    | Unidentified

  /** The stored-row id of an occurrence observed under one promotion scope. */
  function OccurrenceTxId(hash: Hash, connectionId: string, account: Option<string>, scopeId: string, occurrenceId: string): string {
    TransactionId(hash, AccountId(hash, connectionId, account), OCCURRENCE_PREFIX + scopeId + ":" + occurrenceId)
  }

  /** assignTransactionId: trust an approved update, then a bank reference, then
      the promotion-scoped occurrence. */
  function AssignTransactionId(hash: Hash, connectionId: string, account: Option<string>,
                               providerTransactionId: Option<string>, existingCanonicalId: Option<string>,
                               occurrenceId: string, approved: set<CanonicalKey>,
                               target: Option<string>, scopeId: string): Identity {
    var accountId := AccountId(hash, connectionId, account);
    var bank := IsBankProvidedId(providerTransactionId);
    if Truthy(existingCanonicalId) then
      if CanonicalUpdateKey(account, existingCanonicalId.value) !in approved || !Truthy(target) then Unidentified
      else Assigned(target.value, if bank then providerTransactionId.value else existingCanonicalId.value, true)
    else if bank then
      Assigned(TransactionId(hash, accountId, providerTransactionId.value), providerTransactionId.value, false)
    else if occurrenceId != "" && scopeId != "" then
      var txId := OccurrenceTxId(hash, connectionId, account, scopeId, occurrenceId);
      Assigned(txId, OCCURRENCE_PREFIX + txId, false)
    else Unidentified
  }

  // ------------------------------------------------ declared update targets

  datatype DropReason = ClaimedTwice | NotInSnapshot | Ambiguous | MissingRow | OtherAccount | RowTargetedTwice

  predicate Declares(claim: Observation) {
    Truthy(claim.existingCanonicalId)
  }

  function ClaimKey(claim: Observation): CanonicalKey
    requires Declares(claim)
  {
    CanonicalUpdateKey(claim.account, claim.existingCanonicalId.value)
  }

  predicate Claims(claim: Observation, key: CanonicalKey) {
    Declares(claim) && ClaimKey(claim) == key
  }

  /** The positions below n at which a claim declares the key. */
  function Positions(claims: seq<Observation>, key: CanonicalKey, n: nat): set<nat>
    requires n <= |claims|
  {
    set i: nat | i < n && Claims(claims[i], key)
  }

  lemma {:induction false} PositionsStep(claims: seq<Observation>, key: CanonicalKey, n: nat)
    requires n < |claims|
    ensures Positions(claims, key, n + 1) == Positions(claims, key, n) + if Claims(claims[n], key) then {n} else {}
  {
  }

  ghost function Only<T>(s: set<T>): (x: T)
    requires |s| == 1
    ensures s == {x}
  {
    var x :| x in s;
    assert |s - {x}| == 0;
    assert s == {x};
    x
  }

  /** What storage knows when it resolves the declared updates of one promotion. */
  datatype Snapshot = Snapshot(claims: seq<Observation>, targets: map<CanonicalKey, set<string>>, rows: map<string, TxData>)

  /** The key is declared by exactly one claim and approves exactly one row. */
  ghost predicate Unambiguous(s: Snapshot, key: CanonicalKey) {
    |Positions(s.claims, key, |s.claims|)| == 1 && key in s.targets && |s.targets[key]| == 1
  }

  ghost function Target(s: Snapshot, key: CanonicalKey): string
    requires Unambiguous(s, key)
  {
    Only(s.targets[key])
  }

  /** A key may be honoured: the one row it approves exists under its account. */
  ghost predicate Eligible(s: Snapshot, key: CanonicalKey) {
    && Unambiguous(s, key)
    && Target(s, key) in s.rows
    && KeyAccount(s.rows[Target(s, key)].account) == key.account
  }

  /** A key is honoured: eligible, and no other eligible key names the same row. */
  ghost predicate Accepted(s: Snapshot, key: CanonicalKey) {
    && Eligible(s, key)
    && forall other :: Eligible(s, other) && Target(s, other) == Target(s, key) ==> other == key
  }

  ghost function ReasonFor(s: Snapshot, key: CanonicalKey): DropReason {
    if |Positions(s.claims, key, |s.claims|)| != 1 then ClaimedTwice
    else if key !in s.targets then NotInSnapshot
    else if |s.targets[key]| != 1 then Ambiguous
    else if Target(s, key) !in s.rows then MissingRow
    else if KeyAccount(s.rows[Target(s, key)].account) != key.account then OtherAccount
    else RowTargetedTwice
  }

  /** Claim positions grouped by key: no key is missing and none is empty. */
  ghost predicate Grouped(claims: seq<Observation>, n: nat, indexesByKey: map<CanonicalKey, set<nat>>)
    requires n <= |claims|
  {
    && (forall k :: k in indexesByKey <==> Positions(claims, k, n) != {})
    && (forall k :: k in indexesByKey ==> indexesByKey[k] == Positions(claims, k, n))
  }

  method GroupClaims(claims: seq<Observation>) returns (indexesByKey: map<CanonicalKey, set<nat>>)
    ensures Grouped(claims, |claims|, indexesByKey)
  {
    indexesByKey := map[];
    for i := 0 to |claims|
      invariant Grouped(claims, i, indexesByKey)
    {
      forall k ensures Positions(claims, k, i + 1) == Positions(claims, k, i) + if Claims(claims[i], k) then {i} else {} {
        PositionsStep(claims, k, i);
      }
      if Declares(claims[i]) {
        var key := ClaimKey(claims[i]);
        if key in indexesByKey {
          indexesByKey := indexesByKey[key := indexesByKey[key] + {i}];
        } else {
          indexesByKey := indexesByKey[key := {i}];
        }
      }
    }
  }

  /** The state after a set of keys has been checked on its own merits. */
  ghost predicate Checked(s: Snapshot, keys: set<CanonicalKey>, resolved: map<CanonicalKey, string>,
                          indexByKey: map<CanonicalKey, nat>, dropped: map<nat, DropReason>) {
    && (forall k :: k in resolved <==> k in keys && Eligible(s, k))
    && (forall k :: k in resolved ==> resolved[k] == Target(s, k))
    && (forall k :: k in resolved ==> k in indexByKey && Positions(s.claims, k, |s.claims|) == {indexByKey[k]})
    && (forall i: nat :: i in dropped <==> i < |s.claims| && Declares(s.claims[i]) && DroppedAlone(s, keys, ClaimKey(s.claims[i])))
    && (forall i :: i in dropped ==> dropped[i] == ReasonFor(s, ClaimKey(s.claims[i])))
  }

  ghost predicate DroppedAlone(s: Snapshot, keys: set<CanonicalKey>, key: CanonicalKey) {
    key in keys && !Eligible(s, key)
  }

  /** One key's own verdict: the row it resolves to, or why it is dropped. */
  method CheckKey(s: Snapshot, key: CanonicalKey, matching: set<nat>) returns (verdict: Result<string, DropReason>)
    requires matching == Positions(s.claims, key, |s.claims|) && matching != {}
    ensures verdict.Ok? <==> Eligible(s, key)
    ensures verdict.Ok? ==> verdict.value == Target(s, key)
    ensures verdict.Err? ==> verdict.error == ReasonFor(s, key)
  {
    if |matching| != 1 {
      return Err(ClaimedTwice);
    }
    var index :| index in matching;
    if key !in s.targets {
      return Err(NotInSnapshot);
    }
    if |s.targets[key]| != 1 {
      return Err(Ambiguous);
    }
    var targetId :| targetId in s.targets[key];
    assert targetId == Target(s, key);
    if targetId !in s.rows {
      return Err(MissingRow);
    }
    if CanonicalUpdateKey(s.rows[targetId].account, s.claims[index].existingCanonicalId.value) != key {
      return Err(OtherAccount);
    }
    return Ok(targetId);
  }

  /** Record one reason for every listed claim. */
  method DropAll(matching: set<nat>, before: map<nat, DropReason>, reason: DropReason) returns (dropped: map<nat, DropReason>)
    ensures dropped.Keys == before.Keys + matching
    ensures forall i :: i in dropped ==> dropped[i] == if i in matching then reason else before[i]
  {
    dropped := before;
    var pending := matching;
    while pending != {}
      invariant pending <= matching
      invariant dropped.Keys == before.Keys + (matching - pending)
      invariant forall i :: i in dropped ==> dropped[i] == if i in matching - pending then reason else before[i]
    {
      var i :| i in pending;
      dropped, pending := dropped[i := reason], pending - {i};
    }
  }

  lemma {:induction false} CheckedStep(s: Snapshot, keys: set<CanonicalKey>, key: CanonicalKey, matching: set<nat>,
                    resolved: map<CanonicalKey, string>, indexByKey: map<CanonicalKey, nat>, dropped: map<nat, DropReason>,
                    dropped': map<nat, DropReason>)
    requires Checked(s, keys, resolved, indexByKey, dropped) && key !in keys
    requires matching == Positions(s.claims, key, |s.claims|) && !Eligible(s, key)
    requires dropped'.Keys == dropped.Keys + matching
    requires forall i :: i in dropped' ==> dropped'[i] == if i in matching then ReasonFor(s, key) else dropped[i]
    ensures Checked(s, keys + {key}, resolved, indexByKey, dropped')
  {
    forall i: nat | i < |s.claims| && Declares(s.claims[i])
      ensures i in dropped' <==> DroppedAlone(s, keys + {key}, ClaimKey(s.claims[i]))
    {
      assert i in matching <==> ClaimKey(s.claims[i]) == key;
      assert DroppedAlone(s, keys + {key}, ClaimKey(s.claims[i]))
        <==> DroppedAlone(s, keys, ClaimKey(s.claims[i])) || ClaimKey(s.claims[i]) == key;
    }
    forall i | i in dropped' ensures i < |s.claims| && Declares(s.claims[i]) && dropped'[i] == ReasonFor(s, ClaimKey(s.claims[i])) {
      if i in matching {
        assert Claims(s.claims[i], key);
      }
    }
  }

  lemma {:induction false} CheckedKeep(s: Snapshot, keys: set<CanonicalKey>, key: CanonicalKey, index: nat,
                    resolved: map<CanonicalKey, string>, indexByKey: map<CanonicalKey, nat>, dropped: map<nat, DropReason>)
    requires Checked(s, keys, resolved, indexByKey, dropped) && key !in keys
    requires Eligible(s, key) && Positions(s.claims, key, |s.claims|) == {index}
    ensures Checked(s, keys + {key}, resolved[key := Target(s, key)], indexByKey[key := index], dropped)
  {
  }

  /** First pass: every claimed key is checked on its own, in any order. */
  method CheckKeys(s: Snapshot, indexesByKey: map<CanonicalKey, set<nat>>)
    returns (resolved: map<CanonicalKey, string>, indexByKey: map<CanonicalKey, nat>, dropped: map<nat, DropReason>)
    requires Grouped(s.claims, |s.claims|, indexesByKey)
    ensures Checked(s, indexesByKey.Keys, resolved, indexByKey, dropped)
  {
    resolved, indexByKey, dropped := map[], map[], map[];
    var pending := indexesByKey.Keys;
    while pending != {}
      invariant pending <= indexesByKey.Keys
      invariant Checked(s, indexesByKey.Keys - pending, resolved, indexByKey, dropped)
    {
      var key :| key in pending;
      var matching := indexesByKey[key];
      var verdict := CheckKey(s, key, matching);
      ghost var done := indexesByKey.Keys - pending;
      assert indexesByKey.Keys - (pending - {key}) == done + {key};
      if verdict.Err? {
        var dropped' := DropAll(matching, dropped, verdict.error);
        CheckedStep(s, done, key, matching, resolved, indexByKey, dropped, dropped');
        dropped := dropped';
      } else {
        var index :| index in matching;
        assert matching == {index} by {
          assert Only(matching) == index;
        }
        CheckedKeep(s, done, key, index, resolved, indexByKey, dropped);
        resolved, indexByKey := resolved[key := verdict.value], indexByKey[key := index];
      }
      pending := pending - {key};
    }
    assert indexesByKey.Keys - pending == indexesByKey.Keys;
  }

  /** Group the surviving keys by the row they name. */
  method GroupByTarget(resolved: map<CanonicalKey, string>) returns (keysByTarget: map<string, set<CanonicalKey>>)
    ensures forall t :: t in keysByTarget ==> keysByTarget[t] == Naming(resolved, t)
    ensures forall k :: k in resolved ==> resolved[k] in keysByTarget
  {
    keysByTarget := map[];
    ghost var seen: map<CanonicalKey, string> := map[];
    var pending := resolved.Keys;
    while pending != {}
      invariant pending <= resolved.Keys && seen.Keys == resolved.Keys - pending
      invariant forall k :: k in seen ==> seen[k] == resolved[k] && seen[k] in keysByTarget
      invariant forall t :: t in keysByTarget ==> keysByTarget[t] == Naming(seen, t)
      invariant forall t :: t !in keysByTarget ==> Naming(seen, t) == {}
    {
      var key :| key in pending;
      var targetId := resolved[key];
      ghost var seen' := seen[key := targetId];
      assert forall t :: Naming(seen', t) == Naming(seen, t) + if t == targetId then {key} else {};
      keysByTarget := keysByTarget[targetId := (if targetId in keysByTarget then keysByTarget[targetId] else {}) + {key}];
      seen, pending := seen[key := targetId], pending - {key};
    }
    assert seen == resolved;
  }

  function Naming(resolved: map<CanonicalKey, string>, targetId: string): set<CanonicalKey> {
    set k | k in resolved && resolved[k] == targetId
  }

  /** The keys whose row is named by more than one surviving key. */
  function Shared(resolved: map<CanonicalKey, string>): set<CanonicalKey> {
    set k | k in resolved && |Naming(resolved, resolved[k])| != 1
  }

  /** Claims dropped after a set of keys lost its shared row. */
  ghost predicate DroppedWith(removed: set<CanonicalKey>, indexByKey: map<CanonicalKey, nat>,
                              before: map<nat, DropReason>, dropped: map<nat, DropReason>)
    requires removed <= indexByKey.Keys
  {
    && dropped.Keys == before.Keys + (set k | k in removed :: indexByKey[k])
    && (forall i :: i in dropped ==>
          dropped[i] == if exists k :: k in removed && indexByKey[k] == i then RowTargetedTwice else before[i])
  }

  lemma {:induction false} DroppedWithOne(removed: set<CanonicalKey>, key: CanonicalKey, indexByKey: map<CanonicalKey, nat>,
                       before: map<nat, DropReason>, dropped: map<nat, DropReason>)
    requires removed <= indexByKey.Keys && key in indexByKey && DroppedWith(removed, indexByKey, before, dropped)
    ensures DroppedWith(removed + {key}, indexByKey, before, dropped[indexByKey[key] := RowTargetedTwice])
  {
  }

  /** Withdraw every key in a set that shares one row. */
  method DropKeys(keys: set<CanonicalKey>, resolved: map<CanonicalKey, string>, indexByKey: map<CanonicalKey, nat>,
                  dropped: map<nat, DropReason>, ghost removed: set<CanonicalKey>, ghost before: map<nat, DropReason>)
    returns (resolved': map<CanonicalKey, string>, dropped': map<nat, DropReason>)
    requires keys <= indexByKey.Keys && removed <= indexByKey.Keys && DroppedWith(removed, indexByKey, before, dropped)
    ensures resolved' == resolved - keys
    ensures DroppedWith(removed + keys, indexByKey, before, dropped')
  {
    resolved', dropped' := resolved, dropped;
    var rest := keys;
    assert removed + (keys - rest) == removed;
    while rest != {}
      invariant rest <= keys
      invariant resolved' == resolved - (keys - rest)
      invariant DroppedWith(removed + (keys - rest), indexByKey, before, dropped')
    {
      var key :| key in rest;
      DroppedWithOne(removed + (keys - rest), key, indexByKey, before, dropped');
      assert removed + (keys - (rest - {key})) == removed + (keys - rest) + {key};
      dropped' := dropped'[indexByKey[key] := RowTargetedTwice];
      resolved' := resolved' - {key};
      rest := rest - {key};
    }
    assert removed + (keys - rest) == removed + keys;
  }

  /** The shared keys whose row is no longer pending. */
  function SharedOutside(resolved: map<CanonicalKey, string>, pending: set<string>): set<CanonicalKey> {
    set k | k in Shared(resolved) && resolved[k] !in pending
  }

  lemma {:induction false} SharedOutsideStep(resolved: map<CanonicalKey, string>, pending: set<string>, targetId: string)
    requires targetId in pending
    ensures SharedOutside(resolved, pending - {targetId})
         == SharedOutside(resolved, pending)
            + if |Naming(resolved, targetId)| != 1 then Naming(resolved, targetId) else {}
  {
  }

  lemma {:induction false} RemoveTwice<K, V>(m: map<K, V>, a: set<K>, b: set<K>)
    ensures m - a - b == m - (a + b)
  {
  }

  /** Second pass: a row named by several keys is updated by none of them. */
  method DropShared(resolved: map<CanonicalKey, string>, indexByKey: map<CanonicalKey, nat>, dropped: map<nat, DropReason>)
    returns (resolved': map<CanonicalKey, string>, dropped': map<nat, DropReason>)
    requires resolved.Keys <= indexByKey.Keys
    ensures Shared(resolved) <= indexByKey.Keys
    ensures resolved' == resolved - Shared(resolved)
    ensures DroppedWith(Shared(resolved), indexByKey, dropped, dropped')
  {
    var keysByTarget := GroupByTarget(resolved);
    resolved', dropped' := resolved, dropped;
    var pending := keysByTarget.Keys;
    ghost var removed := SharedOutside(resolved, pending);
    assert removed == {};
    while pending != {}
      invariant pending <= keysByTarget.Keys
      invariant removed == SharedOutside(resolved, pending)
      invariant resolved' == resolved - removed
      invariant removed <= indexByKey.Keys && DroppedWith(removed, indexByKey, dropped, dropped')
    {
      var targetId :| targetId in pending;
      var keys := keysByTarget[targetId];
      SharedOutsideStep(resolved, pending, targetId);
      if |keys| != 1 {
        RemoveTwice(resolved, removed, keys);
        resolved', dropped' := DropKeys(keys, resolved', indexByKey, dropped', removed, dropped);
        removed := removed + keys;
      }
      pending := pending - {targetId};
    }
    assert removed == Shared(resolved);
  }

  ghost function ResolvedTargets(s: Snapshot): map<CanonicalKey, string> {
    map k | k in s.targets && Accepted(s, k) :: Target(s, k)
  }

  ghost function DroppedClaims(s: Snapshot): set<nat> {
    set i: nat | i < |s.claims| && Declares(s.claims[i]) && !Accepted(s, ClaimKey(s.claims[i]))
  }

  lemma {:induction false} NamingAlone(s: Snapshot, resolved: map<CanonicalKey, string>, key: CanonicalKey)
    requires forall k :: k in resolved <==> Eligible(s, k)
    requires forall k :: k in resolved ==> Eligible(s, k) && resolved[k] == Target(s, k)
    requires key in resolved
    ensures key !in Shared(resolved) <==> Accepted(s, key)
  {
    var names := Naming(resolved, resolved[key]);
    assert key in names;
    if |names| == 1 {
      assert Only(names) == key;
      forall other | Eligible(s, other) && Target(s, other) == Target(s, key) ensures other == key {
        assert other in names;
      }
    } else {
      assert names != {key};
      var other :| other in names && other != key;
    }
  }

  /** One claim after both passes: dropped exactly when its key is not accepted. */
  lemma {:induction false} ClaimOutcome(s: Snapshot, keys: set<CanonicalKey>, eligible: map<CanonicalKey, string>,
                     indexByKey: map<CanonicalKey, nat>, alone: map<nat, DropReason>, dropped: map<nat, DropReason>, i: nat)
    requires Checked(s, keys, eligible, indexByKey, alone)
    requires forall k :: k in keys <==> Positions(s.claims, k, |s.claims|) != {}
    requires eligible.Keys <= indexByKey.Keys && DroppedWith(Shared(eligible), indexByKey, alone, dropped)
    requires i < |s.claims| && Declares(s.claims[i])
    ensures i in dropped <==> !Accepted(s, ClaimKey(s.claims[i]))
    ensures i in dropped ==> dropped[i] == ReasonFor(s, ClaimKey(s.claims[i]))
  {
    var key := ClaimKey(s.claims[i]);
    assert i in Positions(s.claims, key, |s.claims|);
    forall k | k in eligible && indexByKey[k] == i ensures k == key {
      assert i in Positions(s.claims, k, |s.claims|);
    }
    if key in eligible {
      assert indexByKey[key] == i;
      NamingAlone(s, eligible, key);
      assert !DroppedAlone(s, keys, key);
    } else {
      assert DroppedAlone(s, keys, key);
    }
  }

  lemma {:induction false} SurvivorIffAccepted(s: Snapshot, keys: set<CanonicalKey>, eligible: map<CanonicalKey, string>,
                            indexByKey: map<CanonicalKey, nat>, alone: map<nat, DropReason>, key: CanonicalKey)
    requires Checked(s, keys, eligible, indexByKey, alone)
    requires forall k :: k in keys <==> Positions(s.claims, k, |s.claims|) != {}
    ensures key in eligible - Shared(eligible) <==> Accepted(s, key)
    ensures Accepted(s, key) ==> eligible[key] == Target(s, key)
  {
    forall k ensures k in eligible <==> Eligible(s, k) {
      assert Eligible(s, k) ==> Positions(s.claims, k, |s.claims|) != {};
    }
    if key in eligible {
      NamingAlone(s, eligible, key);
    }
  }

  /** After both passes exactly the accepted keys are left. */
  lemma {:induction false} SurvivorsAccepted(s: Snapshot, keys: set<CanonicalKey>, eligible: map<CanonicalKey, string>,
                          indexByKey: map<CanonicalKey, nat>, alone: map<nat, DropReason>)
    requires Checked(s, keys, eligible, indexByKey, alone)
    requires forall k :: k in keys <==> Positions(s.claims, k, |s.claims|) != {}
    ensures eligible - Shared(eligible) == ResolvedTargets(s)
  {
    var left, want := eligible - Shared(eligible), ResolvedTargets(s);
    forall k ensures k in left <==> k in want {
      SurvivorIffAccepted(s, keys, eligible, indexByKey, alone, k);
    }
    forall k | k in left ensures left[k] == want[k] {
      SurvivorIffAccepted(s, keys, eligible, indexByKey, alone, k);
    }
  }

  /** Only declared claims are ever dropped. */
  lemma {:induction false} DroppedDeclares(s: Snapshot, keys: set<CanonicalKey>, eligible: map<CanonicalKey, string>,
                        indexByKey: map<CanonicalKey, nat>, alone: map<nat, DropReason>, dropped: map<nat, DropReason>, i: nat)
    requires Checked(s, keys, eligible, indexByKey, alone)
    requires eligible.Keys <= indexByKey.Keys && DroppedWith(Shared(eligible), indexByKey, alone, dropped)
    requires i in dropped
    ensures i < |s.claims| && Declares(s.claims[i])
  {
  }

  /** resolveAuthoritativeTransactionUpdateTargets: exactly the accepted keys
      resolve, each to its one approved row; every other claim is dropped. */
  method ResolveUpdateTargets(s: Snapshot) returns (resolved: map<CanonicalKey, string>, dropped: map<nat, DropReason>)
    ensures resolved == ResolvedTargets(s)
    ensures dropped.Keys == DroppedClaims(s)
    ensures forall i :: i in dropped ==> dropped[i] == ReasonFor(s, ClaimKey(s.claims[i]))
  {
    var indexesByKey := GroupClaims(s.claims);
    var eligible, indexByKey, alone := CheckKeys(s, indexesByKey);
    resolved, dropped := DropShared(eligible, indexByKey, alone);
    ghost var keys := indexesByKey.Keys;
    SurvivorsAccepted(s, keys, eligible, indexByKey, alone);
    forall i | i in dropped ensures i in DroppedClaims(s) && dropped[i] == ReasonFor(s, ClaimKey(s.claims[i])) {
      DroppedDeclares(s, keys, eligible, indexByKey, alone, dropped, i);
      ClaimOutcome(s, keys, eligible, indexByKey, alone, dropped, i);
    }
    forall i | i in DroppedClaims(s) ensures i in dropped {
      ClaimOutcome(s, keys, eligible, indexByKey, alone, dropped, i);
    }
  }

  /** No stored row is the target of two honoured updates. */
  lemma {:induction false} ResolvedInjective(s: Snapshot, a: CanonicalKey, b: CanonicalKey)
    requires a in ResolvedTargets(s) && b in ResolvedTargets(s) && a != b
    ensures ResolvedTargets(s)[a] != ResolvedTargets(s)[b]
  {
  }

  function ClaimCount(claims: seq<Observation>, key: CanonicalKey): nat {
    if claims == [] then 0 else ClaimCount(claims[1..], key) + if Claims(claims[0], key) then 1 else 0
  }

  lemma {:induction false} ClaimCountConcat(a: seq<Observation>, b: seq<Observation>, key: CanonicalKey)
    ensures ClaimCount(a + b, key) == ClaimCount(a, key) + ClaimCount(b, key)
  {
    if a == [] {
      assert a + b == b;
    } else {
      assert (a + b)[1..] == a[1..] + b;
      ClaimCountConcat(a[1..], b, key);
    }
  }

  lemma {:induction false} PositionsCount(claims: seq<Observation>, key: CanonicalKey, n: nat)
    requires n <= |claims|
    ensures |Positions(claims, key, n)| == ClaimCount(claims[..n], key)
  {
    if n == 0 {
      assert Positions(claims, key, 0) == {};
    } else {
      PositionsCount(claims, key, n - 1);
      PositionsStep(claims, key, n - 1);
      assert claims[..n] == claims[..n - 1] + [claims[n - 1]];
      ClaimCountConcat(claims[..n - 1], [claims[n - 1]], key);
    }
  }

  lemma {:induction false} ClaimCountBag(a: seq<Observation>, b: seq<Observation>, key: CanonicalKey)
    requires multiset(a) == multiset(b)
    ensures ClaimCount(a, key) == ClaimCount(b, key)
    decreases |a|
  {
    assert |a| == |multiset(a)| == |multiset(b)| == |b|;
    if a != [] {
      var x, rest := a[0], a[1..];
      assert a == [x] + rest;
      assert x in multiset(b);
      var k :| 0 <= k < |b| && b[k] == x;
      var l, r := b[..k], b[k + 1..];
      assert b == l + [x] + r;
      Sorting.RemoveOne(x, rest, l, r);
      ClaimCountBag(rest, l + r, key);
      ClaimCountConcat(l + [x], r, key);
      ClaimCountConcat(l, [x], key);
      ClaimCountConcat(l, r, key);
    }
  }

  /** Which updates are honoured does not depend on the order of the claims. */
  lemma {:induction false} AcceptanceIgnoresOrder(s: Snapshot, claims: seq<Observation>)
    requires multiset(claims) == multiset(s.claims)
    ensures ResolvedTargets(s.(claims := claims)) == ResolvedTargets(s)
  {
    var t := s.(claims := claims);
    forall k ensures Eligible(t, k) <==> Eligible(s, k) {
      PositionsCount(s.claims, k, |s.claims|);
      PositionsCount(t.claims, k, |t.claims|);
      assert s.claims[..|s.claims|] == s.claims && t.claims[..|t.claims|] == t.claims;
      ClaimCountBag(s.claims, t.claims, k);
    }
    assert forall k :: Eligible(s, k) ==> Target(t, k) == Target(s, k);
    assert forall k :: Accepted(t, k) <==> Accepted(s, k);
  }
}
