// The conversation and lead transition tables.
module StateMachines {

  datatype ConversationState =
    | Open | Qualifying | WaitingCustomer | WaitingHuman | HumanActive | AutomatedPaused | DoNotContact | Closed

  datatype LeadState =
    | New | InConversation | LeadQualifying | IncompleteInformation | Qualified | QuoteRequested | QuoteSent
    | PendingDocuments | PendingValidation | PendingInventory | PendingCoverage | PendingFinancing
    | TransferredToAdvisor | ContactedByAdvisor | PortabilityStarted | ContractingStarted | SaleCompleted
    | Lost | NotEligible | DuplicateLead | LeadDoNotContact

  datatype Actor = CustomerActor | SystemActor | WorkerActor | HumanActor
  datatype Cause = Blank | ConsentRestored | ManualReopen | OtherCause

  function ConversationTargets(current: ConversationState): set<ConversationState> {
    match current
    case Open => {Qualifying, WaitingHuman, AutomatedPaused, DoNotContact, Closed}
    case Qualifying => {WaitingCustomer, WaitingHuman, AutomatedPaused, DoNotContact, Closed}
    case WaitingCustomer => {Qualifying, WaitingHuman, AutomatedPaused, DoNotContact, Closed}
    case WaitingHuman => {HumanActive, Qualifying, AutomatedPaused, DoNotContact, Closed}
    case HumanActive => {WaitingCustomer, Qualifying, AutomatedPaused, DoNotContact, Closed}
    case AutomatedPaused => {WaitingHuman, HumanActive, Qualifying, DoNotContact, Closed}
    case DoNotContact => {Open}
    case Closed => {Open}
  }

  predicate ConversationAllows(current: ConversationState, target: ConversationState, actor: Actor, cause: Cause) {
    && cause != Blank
    && target in ConversationTargets(current)
    && (current == DoNotContact || current == Closed ==>
          actor == HumanActor && cause == if current == DoNotContact then ConsentRestored else ManualReopen)
    && (target == HumanActive ==> actor == HumanActor)
  }

  function LeadTargets(current: LeadState): set<LeadState> {
    match current
    case New => {InConversation, LeadQualifying, IncompleteInformation, Qualified, DuplicateLead, LeadDoNotContact}
    case InConversation =>
      {LeadQualifying, IncompleteInformation, Qualified, TransferredToAdvisor, Lost, LeadDoNotContact}
    case LeadQualifying =>
      {IncompleteInformation, Qualified, PendingValidation, TransferredToAdvisor, Lost, LeadDoNotContact}
    case IncompleteInformation => {LeadQualifying, Qualified, TransferredToAdvisor, Lost, LeadDoNotContact}
    case Qualified =>
      {LeadQualifying, IncompleteInformation, QuoteRequested, TransferredToAdvisor, Lost, LeadDoNotContact}
    case QuoteRequested => {QuoteSent, TransferredToAdvisor, Lost, LeadDoNotContact}
    case TransferredToAdvisor => {ContactedByAdvisor, LeadQualifying, Qualified, Lost, LeadDoNotContact}
    case ContactedByAdvisor => {QuoteRequested, PortabilityStarted, ContractingStarted, Lost, LeadDoNotContact}
    case _ => {}
  }

  predicate LeadAllows(current: LeadState, target: LeadState, actor: Actor, cause: Cause) {
    if cause == Blank then false
    else if current == target then true
    else if target == LeadDoNotContact && current != SaleCompleted && current != DuplicateLead then true
    else if current == LeadDoNotContact then actor == HumanActor && cause == ConsentRestored && target == InConversation
    else target in LeadTargets(current)
  }

  /** Only a human with the required cause leaves do-not-contact: to OPEN for the conversation, and to
      IN_CONVERSATION for the lead. */
  lemma LeavingDoNotContactNeedsConsent(actor: Actor, cause: Cause)
    ensures forall target :: target != DoNotContact ==>
      (ConversationAllows(DoNotContact, target, actor, cause)
       <==> target == Open && actor == HumanActor && cause == ConsentRestored)
    ensures forall target :: target != LeadDoNotContact ==>
      (LeadAllows(LeadDoNotContact, target, actor, cause)
       <==> target == InConversation && actor == HumanActor && cause == ConsentRestored)
  {
  }
}
