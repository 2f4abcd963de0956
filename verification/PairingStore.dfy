/** The pairing operations as guarded updates of the intent rows in place, each proved to
    be one step of DevicePairing with the right answer. */
module PairingStore {
  import opened Basics
  import opened DevicePairing

  datatype Completion = Unfinished(status: Status) | Paired

  /** What a phone is told when completion mints nothing: a stranger learns only
      `expired`, and an approved intent whose grants are gone reads as cancelled. */
  function Refused(row: Intent, claimHash: nat, now: int): Status {
    if row.claimHash != Some(claimHash) then Expired
    else if row.consumedAt.Some? then Used
    else if PairingStatus(row, now).Approved? then Cancelled
    else PairingStatus(row, now)
  }

  class Store {
    const hash: Hash
    var intents: map<nat, Intent>
    var nextId: nat
    var owned: set<(string, nat)>
    ghost var stories: map<nat, Story>

    ghost function State(): Table
      reads this
    {
      Table(intents, nextId, owned, stories)
    }

    ghost predicate Valid()
      reads this
    {
      Sound(State(), hash)
    }

    constructor (hash: Hash)
      ensures Valid() && State() == EMPTY && this.hash == hash
    {
      this.hash := hash;
      intents, nextId, owned, stories := map[], 0, {}, map[];
    }

    /** The row with this code, which the unique index makes the only one. */
    method FindByCode(codeHash: nat) returns (found: Option<nat>)
      requires CodesUnique(intents)
      ensures found.Some? ==> OnlyRow(intents, codeHash, found.value)
      ensures found.None? ==> forall id :: id in intents ==> intents[id].codeHash != codeHash
    {
      var pending := intents.Keys;
      while pending != {}
        invariant pending <= intents.Keys
        invariant forall id :: id in intents && id !in pending ==> intents[id].codeHash != codeHash
        decreases |pending|
      {
        var id :| id in pending;
        if intents[id].codeHash == codeHash {
          return Some(id);
        }
        pending := pending - {id};
      }
      found := None;
    }

    method IsClaimTaken(claimHash: nat) returns (taken: bool)
      ensures taken == ClaimTaken(State(), claimHash)
    {
      var pending := intents.Keys;
      taken := false;
      while pending != {} && !taken
        invariant pending <= intents.Keys
        invariant taken ==> ClaimTaken(State(), claimHash)
        invariant forall id :: id in intents && id !in pending && !taken ==> intents[id].claimHash != Some(claimHash)
        decreases |pending|, !taken
      {
        var id :| id in pending;
        if intents[id].claimHash == Some(claimHash) {
          taken := true;
        } else {
          pending := pending - {id};
        }
      }
    }

    /** Write the one row a step changes. */
    method WriteRow(id: nat, row: Intent, ghost s: Step)
      requires Valid() && id in intents && !s.CreateIntent? && !s.OwnershipChanges?
      requires row == RowStep(State(), hash, s, id, intents[id])
      requires forall other :: other in intents && other != id ==> EventOf(State(), hash, s, other, intents[other]) == []
      modifies this
      ensures Valid() && State() == Next(old(State()), hash, s)
    {
      ghost var before := State();
      OneRow(before, hash, s, id);
      StepSound(before, hash, s);
      intents := intents[id := row];
      stories := StoriesAfter(before, hash, s);
    }

    /** A step whose guard lets no row through changes nothing. */
    lemma Unwritten(s: Step)
      requires Valid() && !s.CreateIntent? && !s.OwnershipChanges?
      requires forall id :: id in intents ==> EventOf(State(), hash, s, id, intents[id]) == []
      ensures Next(State(), hash, s) == State()
    {
      assert IntentsAfter(State(), hash, s) == intents;
      forall id | id in stories ensures StoryAfter(State(), hash, s, id) == stories[id] {
        if id in intents {
          assert stories[id].events + [] == stories[id].events;
        }
      }
      assert StoriesAfter(State(), hash, s) == stories;
    }

    /** The status, with the verification code for the claimant and nobody else; `expired`
        for an unknown code; an error exactly when a first claim is in use elsewhere. */
    method ClaimPairingIntent(code: string, claim: string, drawn: nat, now: int)
      returns (answer: Result<(Status, Option<nat>), string>)
      requires Valid()
      modifies this
      ensures Valid() && State() == Next(old(State()), hash, ClaimIntent(code, claim, drawn, now))
      ensures (forall id :: id in old(intents) ==> old(intents)[id].codeHash != hash(code)) ==> answer == Ok((Expired, None))
      ensures forall id :: id in old(intents) && old(intents)[id].codeHash == hash(code) ==>
                && (answer.Err? <==> PairingStatus(old(intents)[id], now).WaitingForPhone? && ClaimTaken(old(State()), hash(claim)))
                && (answer.Ok? ==> id in intents && answer.value == Shown(intents[id], hash(claim), now))
    {
      ghost var s := ClaimIntent(code, claim, drawn, now);
      var found := FindByCode(hash(code));
      if found.None? {
        Unwritten(s);
        return Ok((Expired, None));
      }
      answer := ClaimRow(found.value, code, claim, drawn, now);
    }

    method ClaimRow(id: nat, code: string, claim: string, drawn: nat, now: int)
      returns (answer: Result<(Status, Option<nat>), string>)
      requires Valid() && OnlyRow(intents, hash(code), id)
      modifies this
      ensures Valid() && State() == Next(old(State()), hash, ClaimIntent(code, claim, drawn, now))
      ensures answer.Err? <==> PairingStatus(old(intents)[id], now).WaitingForPhone? && ClaimTaken(old(State()), hash(claim))
      ensures answer.Ok? ==> id in intents && answer.value == Shown(intents[id], hash(claim), now)
    {
      ghost var s := ClaimIntent(code, claim, drawn, now);
      var row := intents[id];
      var status := PairingStatus(row, now);
      if status != WaitingForPhone {
        QuietClaim(State(), hash, s, id);
        Unwritten(s);
        return Ok((status, if row.claimHash == Some(hash(claim)) then row.verificationCode else None));
      }
      var taken := IsClaimTaken(hash(claim));
      if taken {
        QuietClaim(State(), hash, s, id);
        Unwritten(s);
        return Err("unique claim");
      }
      QuietElsewhere(State(), hash, s, id);
      WriteRow(id, row.(claimHash := Some(hash(claim)), verificationCode := Some(drawn)), s);
      answer := Ok((WaitingForApproval, Some(drawn)));
    }

    method ApprovePairingIntent(id: nat, owner: string, now: int) returns (answer: Option<Status>)
      requires Valid()
      modifies this
      ensures Valid() && State() == Next(old(State()), hash, ApproveIntent(id, owner, now))
      ensures answer.None? <==> id !in intents || intents[id].owner != owner
      ensures answer.Some? ==> answer.value == PairingStatus(intents[id], now)
      ensures id in old(intents) && Approves(ApproveIntent(id, owner, now), id, old(intents)[id]) ==>
                id in intents && intents[id].approvedAt == Some(now) && answer == Some(Approved)
    {
      ghost var s := ApproveIntent(id, owner, now);
      if id !in intents || intents[id].owner != owner {
        Unwritten(s);
        return None;
      }
      var status := PairingStatus(intents[id], now);
      if status != WaitingForApproval {
        Unwritten(s);
        return Some(status);
      }
      WriteRow(id, intents[id].(approvedAt := Some(now)), s);
      answer := Some(Approved);
    }

    method CancelPairingIntent(id: nat, owner: string, now: int) returns (cancelled: bool)
      requires Valid()
      modifies this
      ensures Valid() && State() == Next(old(State()), hash, CancelIntent(id, owner, now))
      ensures cancelled <==> id in old(intents) && Cancels(CancelIntent(id, owner, now), id, old(intents)[id])
      ensures cancelled ==> id in intents && intents[id].cancelledAt == Some(now)
      ensures cancelled <==>
                && id in old(intents) && old(intents)[id].owner == owner
                && old(intents)[id].consumedAt.None? && old(intents)[id].cancelledAt.None?
    {
      ghost var s := CancelIntent(id, owner, now);
      cancelled := id in intents && intents[id].owner == owner && intents[id].consumedAt.None? && intents[id].cancelledAt.None?;
      if cancelled {
        WriteRow(id, intents[id].(cancelledAt := Some(now)), s);
      } else {
        Unwritten(s);
      }
    }

    method OwnsAll(owner: string, grants: seq<nat>) returns (all: bool)
      ensures all == GrantsOwned(State(), owner, grants)
    {
      all := true;
      for k := 0 to |grants|
        invariant all == forall i :: 0 <= i < k ==> (owner, grants[i]) in owned
      {
        if (owner, grants[k]) !in owned {
          all := false;
        }
      }
    }

    /** Why an intent cannot be created, if so. */
    method Refusal(owner: string, grants: seq<nat>, code: string, now: int) returns (why: Option<string>)
      ensures why.None? <==> Creates(State(), hash, CreateIntent(owner, grants, code, now))
    {
      ghost var s := CreateIntent(owner, grants, code, now);
      if !NoDuplicates(grants) {
        return Some("pairing requires unique, exact connection grants");
      }
      var owns := OwnsAll(owner, grants);
      if !owns {
        return Some("one or more connection grants are unavailable");
      }
      var left := Remaining(intents, owner, now);
      if id :| id in left && left[id].codeHash == hash(code) {
        assert id in intents && !SweptAway(intents[id], owner, now);
        return Some("unique code");
      }
      assert !CodeTaken(State(), hash, s) by {
        forall id | id in intents && !SweptAway(intents[id], owner, now) ensures intents[id].codeHash != hash(code) {
          assert id in left;
        }
      }
      why := None;
    }

    /** Sweep the owner's expired rows and insert the new one. */
    method Insert(row: Intent, now: int, ghost s: Step)
      requires s.CreateIntent? && s.now == now && row == NewIntent(hash, s) && Creates(State(), hash, s)
      modifies this
      ensures State() == Next(old(State()), hash, s) && nextId == old(nextId) + 1
    {
      intents := Remaining(intents, row.owner, now)[nextId := row];
      stories := stories[nextId := Story(row.owner, row.grants, row.expiresAt, [])];
      nextId := nextId + 1;
    }

    method CreatePairingIntent(owner: string, grants: seq<nat>, code: string, now: int) returns (answer: Result<nat, string>)
      requires Valid()
      modifies this
      ensures Valid() && State() == Next(old(State()), hash, CreateIntent(owner, grants, code, now))
      ensures answer.Ok? <==> Creates(old(State()), hash, CreateIntent(owner, grants, code, now))
      ensures answer.Ok? ==> answer.value == old(nextId)
      ensures answer.Ok? ==> answer.value in intents && intents[answer.value].grants == grants && intents[answer.value].owner == owner
    {
      ghost var s := CreateIntent(owner, grants, code, now);
      StepSound(State(), hash, s);
      var why := Refusal(owner, grants, code, now);
      if why.Some? {
        return Err(why.value);
      }
      answer := Ok(nextId);
      Insert(Intent(owner, grants, hash(code), now + PAIRING_LIFETIME_MS, None, None, None, None, None), now, s);
    }

    /** Paired exactly when the step mints; `expired` for an unknown code, otherwise the
        refusal the row calls for. */
    method CompletePairingIntent(code: string, claim: string, now: int) returns (answer: Completion)
      requires Valid()
      modifies this
      ensures Valid() && State() == Next(old(State()), hash, CompleteIntent(code, claim, now))
      ensures (forall id :: id in old(intents) ==> old(intents)[id].codeHash != hash(code)) ==> answer == Unfinished(Expired)
      ensures forall id :: id in old(intents) && old(intents)[id].codeHash == hash(code) ==>
                if Mints(old(State()), hash, CompleteIntent(code, claim, now), old(intents)[id]) then answer.Paired?
                else answer == Unfinished(Refused(old(intents)[id], hash(claim), now))
    {
      var found := FindByCode(hash(code));
      if found.None? {
        Unwritten(CompleteIntent(code, claim, now));
        return Unfinished(Expired);
      }
      answer := CompleteRow(found.value, code, claim, now);
    }

    method CompleteRow(id: nat, code: string, claim: string, now: int) returns (answer: Completion)
      requires Valid() && OnlyRow(intents, hash(code), id)
      modifies this
      ensures Valid() && State() == Next(old(State()), hash, CompleteIntent(code, claim, now))
      ensures if Mints(old(State()), hash, CompleteIntent(code, claim, now), old(intents)[id]) then answer.Paired?
              else answer == Unfinished(Refused(old(intents)[id], hash(claim), now))
    {
      ghost var s := CompleteIntent(code, claim, now);
      QuietElsewhere(State(), hash, s, id);
      var row := intents[id];
      if row.claimHash != Some(hash(claim)) {
        Unwritten(s);
        return Unfinished(Expired);
      }
      var status := PairingStatus(row, now);
      if row.consumedAt.Some? || status != Approved {
        Unwritten(s);
        return Unfinished(if row.consumedAt.Some? then Used else if status.WaitingForPhone? then WaitingForApproval else status);
      }
      var owns := OwnsAll(row.owner, row.grants);
      if !owns {
        Unwritten(s);
        return Unfinished(Cancelled);
      }
      WriteRow(id, row.(consumedAt := Some(now)), s);
      answer := Paired;
    }
  }

  /** The code names this row and no other. */
  ghost predicate OnlyRow(intents: map<nat, Intent>, codeHash: nat, id: nat) {
    id in intents && forall k :: k in intents ==> (intents[k].codeHash == codeHash <==> k == id)
  }

  /** What a claimant sees of a row. */
  function Shown(row: Intent, claimHash: nat, now: int): (Status, Option<nat>) {
    (PairingStatus(row, now), if row.claimHash == Some(claimHash) then row.verificationCode else None)
  }

  predicate ByCode(s: Step) {
    s.ClaimIntent? || s.CompleteIntent?
  }

  lemma {:induction false} QuietElsewhere(t: Table, h: Hash, s: Step, id: nat)
    requires ByCode(s) && OnlyRow(t.intents, h(s.code), id)
    ensures forall k :: k in t.intents && k != id ==> EventOf(t, h, s, k, t.intents[k]) == []
  {
  }

  lemma {:induction false} QuietClaim(t: Table, h: Hash, s: Step, id: nat)
    requires s.ClaimIntent? && OnlyRow(t.intents, h(s.code), id)
    requires !PairingStatus(t.intents[id], s.now).WaitingForPhone? || ClaimTaken(t, h(s.claim))
    ensures forall k :: k in t.intents ==> EventOf(t, h, s, k, t.intents[k]) == []
  {
  }

  lemma {:induction false} OneRow(t: Table, h: Hash, s: Step, id: nat)
    requires id in t.intents
    requires forall other :: other in t.intents && other != id ==> EventOf(t, h, s, other, t.intents[other]) == []
    ensures IntentsAfter(t, h, s) == t.intents[id := RowStep(t, h, s, id, t.intents[id])]
  {
  }
}
