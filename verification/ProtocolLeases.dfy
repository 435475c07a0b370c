// References, leases and claims: the part of the protocol's invariant that fences workers.
module ProtocolLeases {
  import opened Wrappers
  import opened StateMachines
  import opened Protocol
  import Theorems = ProfileTheorems

  // ---------------------------------------------------------------- references

  ghost predicate IndexRefs(db: Db) {
    && (forall k :: k in db.contactIndex ==> db.contactIndex[k] in db.contacts)
    && (forall k :: k in db.conversationIndex ==> db.conversationIndex[k] in db.conversations)
    && (forall k :: k in db.messageIndex ==> db.messageIndex[k] in db.messages)
  }

  ghost predicate IdsIssued(db: Db) {
    && (forall i :: i in db.contacts ==> i < db.nextId)
    && (forall i :: i in db.leads ==> i < db.nextId)
    && (forall i :: i in db.conversations ==> i < db.nextId)
    && (forall i :: i in db.rows ==> i < db.nextId)
  }

  ghost predicate ConversationRefs(db: Db) {
    forall c :: c in db.conversations ==>
      && db.conversations[c].contact in db.contacts
      && db.conversations[c].lead in db.leads
      && db.leads[db.conversations[c].lead].contact == db.conversations[c].contact
  }

  /** Every conversation has a lead of its own. */
  ghost predicate LeadsDistinct(db: Db) {
    forall c, d :: c in db.conversations && d in db.conversations && c != d ==>
      db.conversations[c].lead != db.conversations[d].lead
  }

  ghost predicate RowRefs(db: Db) {
    && (forall m :: m in db.messages <==> m in db.rows)
    && (forall m :: m in db.rows ==>
          && db.rows[m].conversation in db.conversations
          && db.messages[m].conversation == db.rows[m].conversation
          && db.messages[m].status == db.rows[m].status)
  }

  /** Every reference points to a stored row. */
  ghost predicate Refs(db: Db) {
    IndexRefs(db) && IdsIssued(db) && ConversationRefs(db) && LeadsDistinct(db) && RowRefs(db)
  }

  // ---------------------------------------------------------------- leases

  /** A row has a token exactly while it is PROCESSING. */
  ghost predicate TokenIffProcessing(db: Db) {
    forall m :: m in db.rows ==>
      && (db.rows[m].lease.Some? <==> db.rows[m].status == Processing)
      && (db.rows[m].lease.Some? ==> db.rows[m].lease.value.token < db.nextId)
  }

  predicate HoldsToken(row: Row, token: Id) {
    row.lease.Some? && row.lease.value.token == token
  }

  /** No two rows share a token. */
  ghost predicate TokensDistinct(db: Db) {
    forall m, k, t :: m in db.rows && k in db.rows && HoldsToken(db.rows[m], t) && HoldsToken(db.rows[k], t) ==> m == k
  }

  ghost predicate Paired(db: Db, c: Id, lease: Lease) {
    && lease.message in db.rows
    && db.rows[lease.message].conversation == c
    && db.rows[lease.message].status == Processing
    && db.rows[lease.message].lease == Some(RowLease(lease.token, lease.until))
  }

  /** A leased conversation is paired with a PROCESSING row of its own under the same token and expiry. */
  ghost predicate LeasesPaired(db: Db) {
    forall c :: c in db.conversations && db.conversations[c].lease.Some? ==> Paired(db, c, db.conversations[c].lease.value)
  }

  ghost predicate Leases(db: Db) {
    TokenIffProcessing(db) && TokensDistinct(db) && LeasesPaired(db)
  }

  // ---------------------------------------------------------------- what a commit does to rows and leases

  /** The tables a commit never restructures. */
  ghost predicate SameShape(a: Db, b: Db) {
    && a.nextId <= b.nextId
    && b.contactIndex == a.contactIndex && b.conversationIndex == a.conversationIndex && b.messageIndex == a.messageIndex
    && b.contacts.Keys == a.contacts.Keys && b.leads.Keys == a.leads.Keys && b.conversations.Keys == a.conversations.Keys
    && (forall l :: l in a.leads ==> b.leads[l].contact == a.leads[l].contact)
    && (forall c :: c in a.conversations ==>
          b.conversations[c].contact == a.conversations[c].contact && b.conversations[c].lead == a.conversations[c].lead)
  }

  ghost predicate RowReleased(a: Row, b: Row, status: Status) {
    && b.id == a.id && b.conversation == a.conversation && b.attempts == a.attempts
    && b.status == status && b.lease == None
    && status != Processing && status != Pending
  }

  /** The claim owned both leases; its row and message carry the final status; only its conversation is freed. */
  ghost predicate LeaseReturned(a: Db, b: Db, claim: Claim, status: Status) {
    && OwnsRow(a, claim) && OwnsConversation(a, claim) && claim.message in a.messages
    && claim.message in b.rows && RowReleased(a.rows[claim.message], b.rows[claim.message], status)
    && b.rows == a.rows[claim.message := b.rows[claim.message]]
    && b.messages == a.messages[claim.message := a.messages[claim.message].(status := status)]
    && b.conversations.Keys == a.conversations.Keys
    && (forall c :: c in a.conversations ==>
          b.conversations[c].lease == if c == claim.conversation then None else a.conversations[c].lease)
  }

  ghost predicate Released(a: Db, b: Db, claim: Claim, status: Status) {
    SameShape(a, b) && LeaseReturned(a, b, claim, status)
  }

  lemma CompleteReleases(db: Db, claim: Claim, status: Status, execution: Option<Id>, evaluation: Option<Id>)
    requires status != Processing && status != Pending
    ensures Complete(db, claim, status, execution, evaluation).Some? ==>
      Released(db, Complete(db, claim, status, execution, evaluation).value, claim, status)
  {
  }

  lemma FailReleases(db: Db, claim: Claim, status: Status, nextAttempt: int)
    requires status != Processing && status != Pending
    ensures Fail(db, claim, status, nextAttempt).Some? ==>
      Released(db, Fail(db, claim, status, nextAttempt).value, claim, status)
  {
  }

  /** The effects of a commit leave rows, messages and leases alone. */
  lemma EffectsKeepLeases(db: Db, claim: Claim, ext: Extraction, plan: CommitPlan)
    requires Linked(db, claim)
    ensures var after := WithEffects(db, claim, ext, plan);
            && SameShape(db, after) && after.rows == db.rows && after.messages == db.messages
            && forall c :: c in db.conversations ==> after.conversations[c].lease == db.conversations[c].lease
  {
  }

  lemma PlannedReleases(db: Db, claim: Claim, ext: Extraction, plan: CommitPlan)
    requires Linked(db, claim)
    ensures var tx := CommitPlanned(db, claim, ext, plan);
            tx.Commit? ==> Released(db, tx.db, claim, tx.status)
  {
    var status := if ext.degraded then CompletedDegraded else Completed;
    var after := WithEffects(db, claim, ext, plan);
    EffectsKeepLeases(db, claim, ext, plan);
    CompleteReleases(after, claim, status, Some(db.nextId), Some(db.nextId + 1));
  }

  lemma BlockReleases(db: Db, claim: Claim, status: Status)
    requires status != Processing && status != Pending
    ensures var tx := Block(db, claim, status);
            tx.Commit? ==> Released(db, tx.db, claim, status) && tx.status == status && tx.effect == NoEffect
  {
    CompleteReleases(db, claim, status, None, None);
  }

  /** Whatever a worker commits, it owned both leases when it committed, and it returns them. */
  lemma PrepareReleases(db: Db, claim: Claim)
    ensures Prepare(db, claim).Settled? && Prepare(db, claim).tx.Commit? ==>
      Released(db, Prepare(db, claim).tx.db, claim, Prepare(db, claim).tx.status)
  {
    BlockReleases(db, claim, BlockedDoNotContact);
    BlockReleases(db, claim, BlockedHandoff);
  }

  lemma DuplicateReleases(db: Db, claim: Claim, existing: Execution)
    ensures var tx := FinishDuplicate(db, claim, existing);
            tx.Commit? ==> Released(db, tx.db, claim, tx.status)
  {
    CompleteReleases(db, claim, Completed, Some(existing.id), EvaluationOf(db.evaluations, existing.id));
  }

  lemma AdmittedReleases(db: Db, claim: Claim, context: Context, ext: Extraction, verdict: Verdict)
    requires Linked(db, claim)
    ensures var slot := ExecutionSlot(db.executions, DurableKey(claim.conversation, ext.messages));
            slot < |db.executions| ==>
              var tx := FinishDuplicate(db, claim, db.executions[slot]);
              tx.Commit? ==> Released(db, tx.db, claim, tx.status)
    ensures var tx := CommitPlanned(db, claim, ext, PlanCommit(db, claim, context, ext, verdict));
            tx.Commit? ==> Released(db, tx.db, claim, tx.status)
  {
    var slot := ExecutionSlot(db.executions, DurableKey(claim.conversation, ext.messages));
    if slot < |db.executions| {
      DuplicateReleases(db, claim, db.executions[slot]);
    }
    PlannedReleases(db, claim, ext, PlanCommit(db, claim, context, ext, verdict));
  }

  lemma FinalizeReleases(db: Db, claim: Claim, context: Context, ext: Extraction, verdict: Verdict)
    ensures var tx := Finalize(db, claim, context, ext, verdict);
            tx.Commit? ==> Released(db, tx.db, claim, tx.status)
  {
    if OwnsRow(db, claim) && Linked(db, claim) {
      var conversation := db.conversations[claim.conversation];
      if db.leads[conversation.lead].version != context.leadVersion {
      } else if db.contacts[conversation.contact].doNotContact && !ext.dnc {
        BlockReleases(db, claim, BlockedDoNotContact);
      } else if HandoffActive(db.handoffs, claim.conversation) && !ext.dnc {
        BlockReleases(db, claim, BlockedHandoff);
      } else {
        AdmittedReleases(db, claim, context, ext, verdict);
      }
    }
  }

  lemma FailureReleases(db: Db, claim: Claim, retryable: bool, invalid: bool, now: int, maxAttempts: nat)
    ensures var tx := RecordFailure(db, claim, retryable, invalid, now, maxAttempts);
            tx.Commit? ==>
              && Released(db, tx.db, claim, tx.status) && tx.effect == NoEffect
              && tx.status == FailureStatus(claim.attempts, retryable, invalid, maxAttempts)
  {
    FailReleases(db, claim, FailureStatus(claim.attempts, retryable, invalid, maxAttempts), now + Backoff(claim.attempts));
  }

  // ---------------------------------------------------------------- the three kinds of change keep the invariant

  lemma MoreContactsKeepLinks(a: Db, b: Db)
    requires ConversationRefs(a) && LeadsDistinct(a) && RowRefs(a)
    requires b.conversations == a.conversations && b.leads == a.leads && b.rows == a.rows && b.messages == a.messages
    requires forall i :: i in a.contacts ==> i in b.contacts
    ensures ConversationRefs(b) && LeadsDistinct(b) && RowRefs(b)
  {
  }

  lemma ContactKeepsLinks(db: Db, c: Command)
    requires ConversationRefs(db) && LeadsDistinct(db) && RowRefs(db)
    ensures ConversationRefs(WithContact(db, c)) && LeadsDistinct(WithContact(db, c)) && RowRefs(WithContact(db, c))
    ensures WithContact(db, c).rows == db.rows && WithContact(db, c).conversations == db.conversations
  {
    MoreContactsKeepLinks(db, WithContact(db, c));
  }

  lemma ContactKeepsRefs(db: Db, c: Command)
    requires Refs(db)
    ensures Refs(WithContact(db, c)) && ContactFor(db, c) in WithContact(db, c).contacts
    ensures WithContact(db, c).rows == db.rows && WithContact(db, c).conversations == db.conversations
  {
    ContactKeepsIndexes(db, c);
    ContactKeepsLinks(db, c);
  }

  lemma ContactKeepsIndexes(db: Db, c: Command)
    requires IndexRefs(db) && IdsIssued(db)
    ensures IndexRefs(WithContact(db, c)) && IdsIssued(WithContact(db, c))
    ensures ContactFor(db, c) in WithContact(db, c).contacts
  {
    var after := WithContact(db, c);
    if c.contact in db.contactIndex {
      assert after == db.(nextId := db.nextId + 1);
    } else {
      assert after.contacts == db.contacts[db.nextId := Contact(false)];
      assert after.contactIndex == db.contactIndex[c.contact := db.nextId];
    }
  }

  lemma ConversationKeepsIndexes(db: Db, c: Command, contact: Id)
    requires IndexRefs(db) && IdsIssued(db)
    ensures IndexRefs(WithConversation(db, c, contact)) && IdsIssued(WithConversation(db, c, contact))
    ensures ConversationFor(db, c) in WithConversation(db, c, contact).conversations
  {
  }

  lemma NewConversationKeepsLinks(a: Db, b: Db, n: Id, conversation: Conversation, lead: Lead)
    requires IdsIssued(a) && ConversationRefs(a) && LeadsDistinct(a)
    requires n >= a.nextId && conversation.contact in a.contacts
    requires conversation.lead == n + 1 && lead.contact == conversation.contact
    requires b.contacts == a.contacts && b.conversations == a.conversations[n := conversation]
    requires b.leads == a.leads[n + 1 := lead]
    ensures ConversationRefs(b) && LeadsDistinct(b)
  {
    assert n !in a.conversations && n + 1 !in a.leads;
  }

  lemma ConversationKeepsLinks(db: Db, c: Command, contact: Id)
    requires IdsIssued(db) && ConversationRefs(db) && LeadsDistinct(db) && contact in db.contacts
    ensures ConversationRefs(WithConversation(db, c, contact)) && LeadsDistinct(WithConversation(db, c, contact))
  {
    var n := db.nextId;
    var after := WithConversation(db, c, contact);
    if c.conversation in db.conversationIndex {
      assert after == db.(nextId := n + 2);
    } else {
      NewConversationKeepsLinks(db, after, n, after.conversations[n], after.leads[n + 1]);
    }
  }

  lemma ConversationKeepsRefs(db: Db, c: Command, contact: Id)
    requires Refs(db) && contact in db.contacts
    ensures Refs(WithConversation(db, c, contact))
    ensures ConversationFor(db, c) in WithConversation(db, c, contact).conversations
    ensures WithConversation(db, c, contact).rows == db.rows
  {
    ConversationKeepsIndexes(db, c, contact);
    ConversationKeepsLinks(db, c, contact);
    assert RowRefs(WithConversation(db, c, contact)) by {
      assert forall i :: i in db.conversations ==> i in WithConversation(db, c, contact).conversations;
    }
  }

  lemma MessageKeepsRefs(db: Db, c: Command, conversation: Id, now: int)
    requires Refs(db) && conversation in db.conversations
    ensures Refs(WithMessage(db, c, conversation, now))
  {
  }

  lemma IngestKeepsRefs(db: Db, c: Command, now: int)
    requires Refs(db) && Ingest(db, c, now).Created?
    ensures Refs(Ingest(db, c, now).db)
  {
    ContactKeepsRefs(db, c);
    var db1 := WithContact(db, c);
    ConversationKeepsRefs(db1, c, ContactFor(db, c));
    MessageKeepsRefs(WithConversation(db1, c, ContactFor(db, c)), c, ConversationFor(db1, c), now);
  }

  /** Ingestion adds rows and leaves every stored conversation, lead, message and row as it was. */
  ghost predicate OnlyAdds(a: Db, b: Db) {
    && a.nextId <= b.nextId
    && (forall i :: i in a.contacts ==> i in b.contacts && b.contacts[i] == a.contacts[i])
    && (forall i :: i in b.contacts && i !in a.contacts ==> i >= a.nextId && !b.contacts[i].doNotContact)
    && (forall i :: i in a.leads ==> i in b.leads && b.leads[i] == a.leads[i])
    && (forall i :: i in a.conversations ==> i in b.conversations && b.conversations[i] == a.conversations[i])
    && (forall i :: i in a.rows ==> i in b.rows && b.rows[i] == a.rows[i])
    && (forall i :: i in a.messages ==> i in b.messages && b.messages[i] == a.messages[i])
    && (forall i :: i in b.rows && i !in a.rows ==>
          i >= a.nextId && b.rows[i].status == Pending && b.rows[i].lease == None && b.rows[i].attempts == 0
          && b.rows[i].execution == None)
    && (forall i :: i in b.leads && i !in a.leads ==>
          i >= a.nextId && b.leads[i].state == New && b.leads[i].version == 1 && b.leads[i].evaluation == None
          && b.leads[i].facts == map[] && b.leads[i].opportunity.primary == Theorems.UNIDENTIFIED)
    && (forall i :: i in b.conversations && i !in a.conversations ==>
          && i >= a.nextId && b.conversations[i].lease == None && b.conversations[i].state == Open
          && b.conversations[i].automation && b.conversations[i].lead !in a.leads)
    && b.executions == a.executions && b.evaluations == a.evaluations
    && b.handoffs == a.handoffs && b.questions == a.questions
  }

  /** At most one new contact and at most one new conversation with its lead. */
  ghost predicate PartiesAdded(a: Db, b: Db, c: Command, contact: Id) {
    var n := a.nextId;
    && b.contacts == (if c.contact in a.contactIndex then a.contacts else a.contacts[n := Contact(false)])
    && (c.conversation in a.conversationIndex ==> b.conversations == a.conversations && b.leads == a.leads)
    && (c.conversation !in a.conversationIndex ==>
          && b.conversations == a.conversations[n + 1 := Conversation(contact, n + 2, Open, true, None)]
          && b.leads == a.leads[n + 2 :=
               Lead(contact, New, 1, Theorems.Opportunity(Theorems.UNIDENTIFIED, []), None, map[])])
  }

  /** One new message with its row, and nothing else. */
  ghost predicate MessageAdded(a: Db, b: Db, c: Command, conversation: Id, now: int) {
    var n := a.nextId;
    && b.nextId == n + 5
    && b.messages == a.messages[n + 3 :=
         Message(conversation, c.fingerprint, c.sentAt, now, c.dncText, c.correctionText, Pending)]
    && b.rows == a.rows[n + 3 := Row(n + 4, conversation, Pending, 0, None, now, None, None)]
    && b.executions == a.executions && b.evaluations == a.evaluations
    && b.handoffs == a.handoffs && b.questions == a.questions
  }

  lemma IngestAddsParties(db: Db, c: Command, now: int)
    requires Ingest(db, c, now).Created?
    ensures PartiesAdded(db, Ingest(db, c, now).db, c, ContactFor(db, c))
  {
    var db1 := WithContact(db, c);
    var db2 := WithConversation(db1, c, ContactFor(db, c));
    assert Ingest(db, c, now).db == WithMessage(db2, c, ConversationFor(db1, c), now);
  }

  lemma IngestAddsMessage(db: Db, c: Command, now: int)
    requires Ingest(db, c, now).Created?
    ensures MessageAdded(db, Ingest(db, c, now).db, c, ConversationFor(WithContact(db, c), c), now)
  {
    var db1 := WithContact(db, c);
    var db2 := WithConversation(db1, c, ContactFor(db, c));
    assert Ingest(db, c, now).db == WithMessage(db2, c, ConversationFor(db1, c), now);
  }

  lemma TablesOnlyAdd(db: Db, after: Db, c: Command, conversation: Id, contact: Id, now: int)
    requires IdsIssued(db) && RowRefs(db)
    requires PartiesAdded(db, after, c, contact) && MessageAdded(db, after, c, conversation, now)
    ensures OnlyAdds(db, after)
  {
    assert db.nextId + 3 !in db.rows && db.nextId + 3 !in db.messages;
  }

  lemma IngestOnlyAdds(db: Db, c: Command, now: int)
    requires Refs(db) && Ingest(db, c, now).Created?
    ensures OnlyAdds(db, Ingest(db, c, now).db)
  {
    IngestAddsParties(db, c, now);
    IngestAddsMessage(db, c, now);
    TablesOnlyAdd(db, Ingest(db, c, now).db, c, ConversationFor(WithContact(db, c), c), ContactFor(db, c), now);
  }

  /** A message is ingested once: its key answers every later ingestion, with a conflict iff the content differs. */
  lemma IngestIsIdempotent(db: Db, c: Command, again: Command, now: int, later: int)
    requires Refs(db) && Ingest(db, c, now).Created? && again.key == c.key
    ensures Ingest(Ingest(db, c, now).db, again, later)
            == if again.fingerprint == c.fingerprint then Replayed else Rejected(IdempotencyConflict)
  {
    var db2 := WithConversation(WithContact(db, c), c, ContactFor(db, c));
    assert Ingest(db, c, now).db == WithMessage(db2, c, ConversationFor(WithContact(db, c), c), now);
    assert c.key !in db.messageIndex;
  }

  /** Row identifiers are issued and belong to one row each. */
  ghost predicate RowIdsDistinct(db: Db) {
    && (forall m :: m in db.rows ==> db.rows[m].id < db.nextId)
    && (forall m, k :: m in db.rows && k in db.rows && db.rows[m].id == db.rows[k].id ==> m == k)
  }

  lemma CandidateIsFirst(db: Db, now: int, locked: set<Id>, a: Id, b: Id)
    requires RowIdsDistinct(db) && Candidate(db, now, locked, a) && Candidate(db, now, locked, b)
    ensures a == b
  {
    assert ClaimsBefore(db, a, b) && ClaimsBefore(db, b, a);
  }

  lemma {:induction false} PowerGrows(n: nat)
    ensures Pow2(n) >= n + 1 && Pow2(n + 1) == 2 * Pow2(n)
  {
    if n > 0 {
      PowerGrows(n - 1);
    }
  }

  /** The delay before a retry doubles with every attempt up to five minutes, and never shrinks. */
  lemma BackoffDoublesToTheCap(attempts: nat)
    ensures 1 <= Backoff(attempts) <= 300
    ensures Backoff(attempts + 1) == if 2 * Backoff(attempts) < 300 then 2 * Backoff(attempts) else 300
    ensures attempts >= 299 ==> Backoff(attempts) == 300
  {
    PowerGrows(attempts);
  }

  lemma AddingKeepsLeases(a: Db, b: Db)
    requires Refs(a) && Leases(a) && OnlyAdds(a, b)
    ensures Leases(b)
  {
    forall c | c in b.conversations && b.conversations[c].lease.Some?
      ensures Paired(b, c, b.conversations[c].lease.value)
    {
      assert Paired(a, c, a.conversations[c].lease.value);
    }
  }

  lemma ClaimKeepsRefs(db: Db, m: Id, until: int)
    requires Refs(db) && m in db.rows
    ensures Refs(ClaimMessage(db, m, until))
  {
  }

  lemma ClaimKeepsLeases(db: Db, m: Id, until: int)
    requires Refs(db) && Leases(db) && m in db.rows
    ensures Leases(ClaimMessage(db, m, until))
  {
    var after := ClaimMessage(db, m, until);
    forall d | d in after.conversations && after.conversations[d].lease.Some?
      ensures Paired(after, d, after.conversations[d].lease.value)
    {
      if d != db.rows[m].conversation {
        assert Paired(db, d, db.conversations[d].lease.value);
      }
    }
  }

  lemma ReleaseKeepsLinks(a: Db, b: Db)
    requires ConversationRefs(a) && LeadsDistinct(a) && IndexRefs(a) && IdsIssued(a)
    requires SameShape(a, b) && a.rows.Keys == b.rows.Keys && a.messages.Keys == b.messages.Keys
    ensures ConversationRefs(b) && LeadsDistinct(b) && IndexRefs(b) && IdsIssued(b)
  {
  }

  lemma ReleaseKeepsRowRefs(a: Db, b: Db, claim: Claim, status: Status)
    requires RowRefs(a) && LeaseReturned(a, b, claim, status)
    ensures RowRefs(b)
  {
  }

  lemma ReleaseKeepsRefs(a: Db, b: Db, claim: Claim, status: Status)
    requires Refs(a) && Released(a, b, claim, status)
    ensures Refs(b)
  {
    ReleaseKeepsRowRefs(a, b, claim, status);
    assert a.rows.Keys == b.rows.Keys && a.messages.Keys == b.messages.Keys;
    ReleaseKeepsLinks(a, b);
  }

  lemma ReleaseKeepsLeases(a: Db, b: Db, claim: Claim, status: Status)
    requires Refs(a) && Leases(a) && LeaseReturned(a, b, claim, status) && a.nextId <= b.nextId
    ensures Leases(b)
  {
    forall d | d in b.conversations && b.conversations[d].lease.Some?
      ensures Paired(b, d, b.conversations[d].lease.value)
    {
      assert Paired(a, d, a.conversations[d].lease.value);
      assert Paired(a, claim.conversation, a.conversations[claim.conversation].lease.value);
    }
    assert TokenIffProcessing(b) && TokensDistinct(b);
  }
}
