/** Pairing a phone: an intent is claimed, approved and completed once, or cancelled, or
    expires. Every database transaction is one atomic step, with its own clock reading. */
module DevicePairing {
  import opened Basics

  const PAIRING_LIFETIME_MS := 5 * 60 * 1000

  /** hashSecret: a digest of a pairing code or claim, as a number. */
  type Hash = string -> nat

  ghost predicate CollisionFree(h: Hash) {
    forall x, y :: h(x) == h(y) ==> x == y
  }

  datatype Intent = Intent(
    owner: string,
    grants: seq<nat>,
    codeHash: nat,
    expiresAt: int,
    claimHash: Option<nat>,
    verificationCode: Option<nat>,
    approvedAt: Option<int>,
    consumedAt: Option<int>,
    cancelledAt: Option<int>)

  datatype Status = WaitingForPhone | WaitingForApproval | Approved | Expired | Used | Cancelled

  function PairingStatus(row: Intent, now: int): Status {
    if row.cancelledAt.Some? then Cancelled
    else if row.consumedAt.Some? then Used
    else if row.expiresAt <= now then Expired
    else if row.approvedAt.Some? then Approved
    else if row.claimHash.Some? then WaitingForApproval
    else WaitingForPhone
  }

  /** What happened to an intent, in order; credentials are minted by `Mint`. */
  datatype Event =
    | Claim(claim: string, at: int)
    | Approval(owner: string, at: int)
    | Cancellation(owner: string)
    | Mint(claim: string, grants: seq<nat>, at: int)

  /** What was asked for, and what happened since. */
  datatype Story = Story(owner: string, grants: seq<nat>, expiresAt: int, events: seq<Event>)

  /** The intents, the connections each owner has, and every intent's story, which
      outlives the row. */
  datatype Table = Table(
    intents: map<nat, Intent>,
    nextId: nat,
    owned: set<(string, nat)>,
    stories: map<nat, Story>)

  datatype Step =
    | CreateIntent(owner: string, grants: seq<nat>, code: string, now: int)
    | ClaimIntent(code: string, claim: string, drawn: nat, now: int)
    | ApproveIntent(id: nat, owner: string, now: int)
    | CancelIntent(id: nat, owner: string, now: int)
    | CompleteIntent(code: string, claim: string, now: int)
    | OwnershipChanges(owned: set<(string, nat)>)

  // ------------------------------------------------------------------- rows

  predicate GrantsOwned(t: Table, owner: string, grants: seq<nat>) {
    forall k :: 0 <= k < |grants| ==> (owner, grants[k]) in t.owned
  }

  predicate NoDuplicates(grants: seq<nat>) {
    forall i, j :: 0 <= i < j < |grants| ==> grants[i] != grants[j]
  }

  /** The unique index on claim hashes refuses a claim already used elsewhere. */
  predicate ClaimTaken(t: Table, claimHash: nat) {
    exists id :: id in t.intents && t.intents[id].claimHash == Some(claimHash)
  }

  predicate Claims(t: Table, h: Hash, s: Step, row: Intent) {
    s.ClaimIntent? && row.codeHash == h(s.code) && PairingStatus(row, s.now).WaitingForPhone? && !ClaimTaken(t, h(s.claim))
  }

  predicate Approves(s: Step, id: nat, row: Intent) {
    s.ApproveIntent? && s.id == id && row.owner == s.owner && PairingStatus(row, s.now).WaitingForApproval?
  }

  predicate Cancels(s: Step, id: nat, row: Intent) {
    s.CancelIntent? && s.id == id && row.owner == s.owner && row.consumedAt.None? && row.cancelledAt.None?
  }

  predicate Mints(t: Table, h: Hash, s: Step, row: Intent) {
    && s.CompleteIntent? && row.codeHash == h(s.code) && row.claimHash == Some(h(s.claim))
    && PairingStatus(row, s.now).Approved? && GrantsOwned(t, row.owner, row.grants)
  }

  /** What a step does to one intent, and the event it adds to its story. */
  function RowStep(t: Table, h: Hash, s: Step, id: nat, row: Intent): Intent {
    if Claims(t, h, s, row) then row.(claimHash := Some(h(s.claim)), verificationCode := Some(s.drawn))
    else if Approves(s, id, row) then row.(approvedAt := Some(s.now))
    else if Cancels(s, id, row) then row.(cancelledAt := Some(s.now))
    else if Mints(t, h, s, row) then row.(consumedAt := Some(s.now))
    else row
  }

  function EventOf(t: Table, h: Hash, s: Step, id: nat, row: Intent): seq<Event> {
    if Claims(t, h, s, row) then [Claim(s.claim, s.now)]
    else if Approves(s, id, row) then [Approval(s.owner, s.now)]
    else if Cancels(s, id, row) then [Cancellation(s.owner)]
    else if Mints(t, h, s, row) then [Mint(s.claim, row.grants, s.now)]
    else []
  }

  // ------------------------------------------------------------------ the table

  predicate CodeTaken(t: Table, h: Hash, s: Step)
    requires s.CreateIntent?
  {
    exists id :: id in t.intents && !SweptAway(t.intents[id], s.owner, s.now) && t.intents[id].codeHash == h(s.code)
  }

  /** Creating an intent first removes the owner's expired ones. */
  predicate SweptAway(row: Intent, owner: string, now: int) {
    row.owner == owner && row.expiresAt < now
  }

  predicate Creates(t: Table, h: Hash, s: Step)
    requires s.CreateIntent?
  {
    NoDuplicates(s.grants) && GrantsOwned(t, s.owner, s.grants) && !CodeTaken(t, h, s)
  }

  function NewIntent(h: Hash, s: Step): Intent
    requires s.CreateIntent?
  {
    Intent(s.owner, s.grants, h(s.code), s.now + PAIRING_LIFETIME_MS, None, None, None, None, None)
  }

  function Remaining(intents: map<nat, Intent>, owner: string, now: int): map<nat, Intent> {
    map id | id in intents && !SweptAway(intents[id], owner, now) :: intents[id]
  }

  function StoryAfter(t: Table, h: Hash, s: Step, id: nat): Story
    requires id in t.stories
  {
    if id in t.intents
    then t.stories[id].(events := t.stories[id].events + EventOf(t, h, s, id, t.intents[id]))
    else t.stories[id]
  }

  function IntentsAfter(t: Table, h: Hash, s: Step): map<nat, Intent> {
    map id | id in t.intents :: RowStep(t, h, s, id, t.intents[id])
  }

  function StoriesAfter(t: Table, h: Hash, s: Step): map<nat, Story> {
    map id | id in t.stories :: StoryAfter(t, h, s, id)
  }

  function Next(t: Table, h: Hash, s: Step): Table {
    match s
    case CreateIntent(owner, grants, _, now) =>
      if !Creates(t, h, s) then t
      else
        Table(Remaining(t.intents, owner, now)[t.nextId := NewIntent(h, s)], t.nextId + 1, t.owned,
              t.stories[t.nextId := Story(owner, grants, now + 300_000, [])])
    case OwnershipChanges(owned) => t.(owned := owned)
    case _ => t.(intents := IntentsAfter(t, h, s), stories := StoriesAfter(t, h, s))
  }

  function Run(t: Table, h: Hash, steps: seq<Step>): Table
    decreases |steps|
  {
    if steps == [] then t else Run(Next(t, h, steps[0]), h, steps[1..])
  }

  const EMPTY := Table(map[], 0, {}, map[])

  // ------------------------------------------------------------- lawful stories

  /** A story still going on: nothing, a claim, or a claim and the owner's approval, all
      before expiry. */
  predicate Open(s: Story, e: seq<Event>) {
    && |e| <= 2
    && (|e| > 0 ==> e[0].Claim? && e[0].at < s.expiresAt)
    && (|e| > 1 ==> e[1].Approval? && e[1].owner == s.owner && e[1].at < s.expiresAt)
  }

  /** All the stories an intent can have: one still going on; one the owner's
      cancellation ended wherever it stood; or claim, approval and then credentials
      for the claimant, before expiry. */
  predicate Lawful(h: Hash, s: Story) {
    var e := s.events;
    || Open(s, e)
    || (|e| > 0 && e[|e| - 1] == Cancellation(s.owner) && Open(s, e[..|e| - 1]))
    || (|e| == 3 && Open(s, e[..2]) && e[2].Mint? && e[2].at < s.expiresAt
        && h(e[2].claim) == h(e[0].claim) && e[2].grants == s.grants)
  }

  /** The row says where its story stands. */
  predicate Tells(h: Hash, row: Intent, s: Story) {
    var e := s.events;
    && row.owner == s.owner && row.grants == s.grants && row.expiresAt == s.expiresAt
    && row.claimHash == (if |e| > 0 && e[0].Claim? then Some(h(e[0].claim)) else None)
    && (row.verificationCode.Some? <==> row.claimHash.Some?)
    && (row.approvedAt.Some? <==> |e| > 1 && e[1].Approval?)
    && (row.consumedAt.Some? <==> |e| > 0 && e[|e| - 1].Mint?)
    && (row.cancelledAt.Some? <==> |e| > 0 && e[|e| - 1].Cancellation?)
  }

  predicate CodesUnique(intents: map<nat, Intent>) {
    forall i, j :: i in intents && j in intents && i != j ==> intents[i].codeHash != intents[j].codeHash
  }

  predicate Sound(t: Table, h: Hash) {
    && (forall id :: id in t.stories ==> id < t.nextId && Lawful(h, t.stories[id]))
    && (forall id :: id in t.intents ==> id in t.stories && Tells(h, t.intents[id], t.stories[id]))
    && CodesUnique(t.intents)
  }

  lemma {:induction false} StillOpen(h: Hash, row: Intent, story: Story)
    requires Lawful(h, story) && Tells(h, row, story) && row.consumedAt.None? && row.cancelledAt.None?
    ensures Open(story, story.events)
    ensures |story.events| == if row.approvedAt.Some? then 2 else if row.claimHash.Some? then 1 else 0
  {
  }

  lemma {:induction false} AppendedStory(story: Story, e: Event)
    ensures (story.events + [e])[..|story.events|] == story.events
  {
  }

  /** The story with one more event. */
  function Longer(s: Story, e: Event): Story {
    s.(events := s.events + [e])
  }

  lemma {:induction false} ClaimSound(h: Hash, row: Intent, story: Story, claim: string, drawn: nat, now: int)
    requires Lawful(h, story) && Tells(h, row, story) && PairingStatus(row, now).WaitingForPhone?
    ensures var after := Longer(story, Claim(claim, now));
      Lawful(h, after) && Tells(h, row.(claimHash := Some(h(claim)), verificationCode := Some(drawn)), after)
  {
    StillOpen(h, row, story);
  }

  lemma {:induction false} ApprovalSound(h: Hash, row: Intent, story: Story, now: int)
    requires Lawful(h, story) && Tells(h, row, story) && PairingStatus(row, now).WaitingForApproval?
    ensures var after := Longer(story, Approval(row.owner, now));
      Lawful(h, after) && Tells(h, row.(approvedAt := Some(now)), after)
  {
    StillOpen(h, row, story);
  }

  lemma {:induction false} CancellationSound(h: Hash, row: Intent, story: Story, now: int)
    requires Lawful(h, story) && Tells(h, row, story) && row.consumedAt.None? && row.cancelledAt.None?
    ensures var after := Longer(story, Cancellation(row.owner));
      Lawful(h, after) && Tells(h, row.(cancelledAt := Some(now)), after)
  {
    StillOpen(h, row, story);
    AppendedStory(story, Cancellation(row.owner));
  }

  lemma {:induction false} MintSound(h: Hash, row: Intent, story: Story, claim: string, now: int)
    requires Lawful(h, story) && Tells(h, row, story)
    requires PairingStatus(row, now).Approved? && row.claimHash == Some(h(claim))
    ensures var after := Longer(story, Mint(claim, row.grants, now));
      Lawful(h, after) && Tells(h, row.(consumedAt := Some(now)), after)
  {
    StillOpen(h, row, story);
    AppendedStory(story, Mint(claim, row.grants, now));
  }

  /** One more lawful event, from what the row allows. */
  lemma {:induction false} EventSound(t: Table, h: Hash, s: Step, id: nat, row: Intent, story: Story)
    requires Lawful(h, story) && Tells(h, row, story)
    ensures var after := story.(events := story.events + EventOf(t, h, s, id, row));
      Lawful(h, after) && Tells(h, RowStep(t, h, s, id, row), after)
  {
    if Claims(t, h, s, row) {
      ClaimSound(h, row, story, s.claim, s.drawn, s.now);
    } else if Approves(s, id, row) {
      ApprovalSound(h, row, story, s.now);
    } else if Cancels(s, id, row) {
      CancellationSound(h, row, story, s.now);
    } else if Mints(t, h, s, row) {
      MintSound(h, row, story, s.claim, s.now);
    } else {
      assert story.events + [] == story.events;
    }
  }

  lemma {:induction false} RowsSound(t: Table, h: Hash, s: Step, id: nat)
    requires Sound(t, h) && !s.CreateIntent? && !s.OwnershipChanges? && id in t.stories
    ensures Lawful(h, StoryAfter(t, h, s, id))
    ensures id in t.intents ==> Tells(h, RowStep(t, h, s, id, t.intents[id]), StoryAfter(t, h, s, id))
  {
    if id in t.intents {
      EventSound(t, h, s, id, t.intents[id], t.stories[id]);
    }
  }

  lemma {:induction false} CreateSound(t: Table, h: Hash, s: Step)
    requires Sound(t, h) && s.CreateIntent? && Creates(t, h, s)
    ensures Sound(Next(t, h, s), h)
  {
  }

  lemma {:induction false} CodesKept(t: Table, h: Hash, s: Step)
    requires CodesUnique(t.intents)
    ensures CodesUnique(IntentsAfter(t, h, s))
  {
  }

  lemma {:induction false} UpdateSound(t: Table, h: Hash, s: Step)
    requires Sound(t, h) && !s.CreateIntent? && !s.OwnershipChanges?
    ensures Sound(t.(intents := IntentsAfter(t, h, s), stories := StoriesAfter(t, h, s)), h)
  {
    CodesKept(t, h, s);
    forall id | id in t.stories
      ensures Lawful(h, StoryAfter(t, h, s, id))
      ensures id in t.intents ==> Tells(h, RowStep(t, h, s, id, t.intents[id]), StoryAfter(t, h, s, id))
    {
      RowsSound(t, h, s, id);
    }
  }

  lemma {:induction false} StepSound(t: Table, h: Hash, s: Step)
    requires Sound(t, h)
    ensures Sound(Next(t, h, s), h)
  {
    if s.CreateIntent? {
      if Creates(t, h, s) {
        CreateSound(t, h, s);
      }
    } else if !s.OwnershipChanges? {
      UpdateSound(t, h, s);
    }
  }

  lemma {:induction false} RunSound(t: Table, h: Hash, steps: seq<Step>)
    requires Sound(t, h)
    ensures Sound(Run(t, h, steps), h)
    decreases |steps|
  {
    if steps != [] {
      StepSound(t, h, steps[0]);
      RunSound(Next(t, h, steps[0]), h, steps[1..]);
    }
  }

  /** Stories only grow; nothing that happened is rewritten, not even when the row goes. */
  lemma {:induction false} StoriesGrow(t: Table, h: Hash, steps: seq<Step>, id: nat)
    requires Sound(t, h) && id in t.stories
    ensures id in Run(t, h, steps).stories && t.stories[id].events <= Run(t, h, steps).stories[id].events
    decreases |steps|
  {
    if steps != [] {
      StepSound(t, h, steps[0]);
      StoriesGrow(Next(t, h, steps[0]), h, steps[1..], id);
    }
  }

  /** On every run an intent mints credentials at most once, only for its first
      claimant, only for the grants asked for, only after its owner's approval that
      followed that claim, and before expiry; it is never both cancelled and used. */
  lemma {:induction false} PairingSafety(h: Hash, steps: seq<Step>, id: nat)
    requires CollisionFree(h) && id in Run(EMPTY, h, steps).stories
    ensures var s := Run(EMPTY, h, steps).stories[id]; var e := s.events;
      && (forall i, j :: 0 <= i < j < |e| ==> !(e[i].Mint? && e[j].Mint?) && !(e[i].Claim? && e[j].Claim?))
      && (forall i, j :: 0 <= i < |e| && 0 <= j < |e| ==> !(e[i].Mint? && e[j].Cancellation?))
      && (forall k :: 0 <= k < |e| && e[k].Mint? ==>
            && k == 2 && e[0].Claim? && e[0].claim == e[k].claim
            && e[1].Approval? && e[1].owner == s.owner && e[k].at < s.expiresAt && e[k].grants == s.grants)
  {
    RunSound(EMPTY, h, steps);
    var s := Run(EMPTY, h, steps).stories[id];
    assert Lawful(h, s);
    if |s.events| > 0 {
      assert forall k :: 0 <= k < |s.events| - 1 ==> s.events[..|s.events| - 1][k] == s.events[k];
    }
  }

  /** A story begins as asked: the owner, the grants and five minutes; and a step mints
      only while the owner still has every granted connection. */
  lemma {:induction false} StoryBegins(t: Table, h: Hash, s: Step)
    requires Sound(t, h) && s.CreateIntent? && Creates(t, h, s)
    ensures var q := Next(t, h, s);
      && t.nextId in q.stories && q.stories[t.nextId] == Story(s.owner, s.grants, s.now + 300_000, [])
      && t.nextId in q.intents && q.intents[t.nextId].grants == s.grants && q.intents[t.nextId].owner == s.owner
      && q.intents[t.nextId].codeHash == h(s.code) && q.intents[t.nextId].expiresAt == s.now + 300_000
      && (forall k :: 0 <= k < |s.grants| ==> (s.owner, s.grants[k]) in t.owned)
      && (forall id :: id in t.intents && (t.intents[id].owner != s.owner || t.intents[id].expiresAt >= s.now) ==>
            id in q.intents && q.intents[id] == t.intents[id])
  {
  }

  /** A step adds the minting of credentials to a story only while the intent is approved,
      unexpired, claimed by this phone, and its owner still has every granted connection. */
  lemma {:induction false} MintsExactly(t: Table, h: Hash, s: Step, id: nat)
    requires Sound(t, h) && id in t.intents
    ensures id in t.stories
    ensures var row, e := t.intents[id], t.stories[id].events;
      (s.CompleteIntent? && Next(t, h, s).stories[id].events == e + [Mint(s.claim, row.grants, s.now)]) <==>
        && s.CompleteIntent? && row.codeHash == h(s.code) && row.claimHash == Some(h(s.claim))
        && |e| == 2 && e[1].Approval? && s.now < t.stories[id].expiresAt
        && (forall k :: 0 <= k < |row.grants| ==> (row.owner, row.grants[k]) in t.owned)
  {
    var row, story := t.intents[id], t.stories[id];
    assert Lawful(h, story) && Tells(h, row, story);
    if s.CompleteIntent? {
      assert Next(t, h, s).stories[id] == StoryAfter(t, h, s, id);
      ApprovedExactly(h, row, story, s.now);
      if !Mints(t, h, s, row) {
        assert story.events + EventOf(t, h, s, id, row) == story.events;
      }
    }
  }

  lemma {:induction false} ApprovedExactly(h: Hash, row: Intent, story: Story, now: int)
    requires Lawful(h, story) && Tells(h, row, story)
    ensures PairingStatus(row, now).Approved? <==>
      |story.events| == 2 && story.events[1].Approval? && now < story.expiresAt
  {
  }

  /** The status a client is shown is where the story stands, with expiry in between. */
  lemma {:induction false} StatusIsStory(t: Table, h: Hash, id: nat, now: int)
    requires Sound(t, h) && id in t.intents
    ensures var status, e := PairingStatus(t.intents[id], now), t.stories[id].events;
      && (status.Used? <==> |e| == 3 && e[2].Mint?)
      && (status.Cancelled? <==> |e| > 0 && e[|e| - 1].Cancellation?)
      && (status.Approved? ==> |e| == 2 && now < t.stories[id].expiresAt)
      && (status.WaitingForApproval? ==> |e| == 1 && now < t.stories[id].expiresAt)
      && (status.WaitingForPhone? ==> e == [] && now < t.stories[id].expiresAt)
  {
  }
}
