// Commercial signal codes and the groups of codes that exclude one another when persisted.
module Signals {

  datatype SignalCode =
    | NeedDefined | PlanCompatible | DeviceCompatible | CoverageConfirmed | CommercialRequirementsCompatible
    | GeneralInformation | AsksPrice | AsksMonthlyPayment | AsksAvailability | ComparesProducts
    | AsksRequirements | RequestsQuote | RequestsPortability | WantsContractNow
    | BudgetUnspecified | BudgetIncompatible | AcceptsAlternatives | BudgetCompatible
    | BudgetAndPaymentDefined | BudgetIncompatibleNoAlternatives
    | ResearchOnly | PurchaseOverThreeMonths | PurchaseOverSixMonths | NextMonth | ThisWeek | Immediate
    | ProvidesRelevantInformation | AnswersQualificationQuestions | SustainedProgress | AcceptsCallOrBranch
    | DeviceAndPlan | AccessoryInterest | MultipleLines | BusinessAccount
    | NoCoverage | DeviceOutOfStock | ContradictoryInformation | ProlongedInactivity
    | RequestsHuman | RequiresHumanReview | DoNotContactSignal

  datatype ExclusiveGroup = Intent | Urgency | Budget

  const EXCLUSIVE_GROUPS: seq<ExclusiveGroup> := [Intent, Urgency, Budget]

  predicate InGroup(code: SignalCode, group: ExclusiveGroup) {
    match group
    case Intent =>
      code in {GeneralInformation, AsksPrice, AsksMonthlyPayment, AsksAvailability, ComparesProducts,
               AsksRequirements, RequestsQuote, RequestsPortability, WantsContractNow, ResearchOnly}
    case Urgency =>
      code in {ResearchOnly, PurchaseOverThreeMonths, PurchaseOverSixMonths, NextMonth, ThisWeek, Immediate}
    case Budget =>
      code in {BudgetUnspecified, BudgetIncompatible, AcceptsAlternatives, BudgetCompatible,
               BudgetAndPaymentDefined, BudgetIncompatibleNoAlternatives}
  }

  predicate SharesGroup(a: SignalCode, b: SignalCode) {
    || (InGroup(a, Intent) && InGroup(b, Intent))
    || (InGroup(a, Urgency) && InGroup(b, Urgency))
    || (InGroup(a, Budget) && InGroup(b, Budget))
  }
}
