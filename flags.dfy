/** The fixed rule table of `backend/src/flags.ts`: ten lease-risk rules, each with an
    id, a label, a severity, keyword phrases, a regular expression and an explanation. */
module Flags {
  import opened Wrappers
  import opened Text

  /** `FlagSeverity`. */
  datatype Severity = Red | Yellow | Green

  /** `FlagDef`: the regular expression is optional in the type. The source's `label`
      is called `title` here, `label` being a Dafny keyword. */
  datatype FlagDef = FlagDef(
    id: string,
    title: string,
    severity: Severity,
    keywords: seq<string>,
    regex: Option<string>,
    whyItMatters: string)

  /** `Flag`: a rule that fired, with the evidence cut from the document (`title` is the
      source's `label`). */
  datatype Flag = Flag(
    id: string,
    title: string,
    severity: Severity,
    evidenceSnippet: string,
    whyItMatters: string)

  /** `FLAG_DEFS`, in declared order. */
  const FlagDefs: seq<FlagDef> := [
    EarlyTerminationPenalty,
    AutomaticRenewal,
    NoticePeriodRequirement,
    SubleaseRestriction,
    LateFeeCharges,
    RepairResponsibility,
    SecurityDepositDeductions,
    LandlordEntryRights,
    RentIncreaseTerms,
    CollectionsLiquidatedDamages]

  const EarlyTerminationPenalty: FlagDef :=
    FlagDef(
      "early-termination-penalty",
      "Early termination penalty",
      Red,
      [
        "early termination fee",
        "terminate early",
        "break the lease",
        "two months rent",
        "three months rent",
        "liquidated damages for early",
        "penalty for breaking",
        "fee equal to",
        "remaining rent due"
      ],
      Some("(early termination|break(?:ing)? (?:the )?lease|terminate before).{0,100}(fee|penalty|charge|pay|damages)"),
      "Leaving before your lease ends may result in significant financial penalties, often equal to multiple months of rent.")

  const AutomaticRenewal: FlagDef :=
    FlagDef(
      "automatic-renewal",
      "Automatic renewal clause",
      Yellow,
      [
        "automatically renew",
        "auto-renew",
        "renews automatically",
        "automatic extension",
        "unless written notice",
        "continue on a month-to-month",
        "extend for an additional term"
      ],
      Some("(automat[ic]+ally? renew|auto[\\s-]?renew|renews? for an additional)"),
      "Missing the notice deadline may lock you into another full lease term, which commonly requires advance planning.")

  const NoticePeriodRequirement: FlagDef :=
    FlagDef(
      "notice-period-requirement",
      "Notice period requirement",
      Yellow,
      [
        "60 days notice",
        "90 days notice",
        "written notice",
        "notice prior to",
        "advance written notice",
        "days before the end",
        "notice to vacate"
      ],
      Some("(\\d{2,3})\\s*days?\\s*(notice|prior|before|advance)"),
      "Notice requirements of 60-90 days are common and missing the deadline may trigger automatic renewal or penalties.")

  const SubleaseRestriction: FlagDef :=
    FlagDef(
      "sublease-restriction",
      "Subleasing restrictions",
      Yellow,
      [
        "sublease",
        "sublet",
        "assign the lease",
        "not permitted to sublease",
        "written consent required",
        "landlord approval",
        "no assignment or subletting"
      ],
      Some("(sublease|sublet|assign).{0,50}(prohibit|not permit|consent|approval|forbidden)"),
      "Many leases restrict or prohibit subleasing without landlord approval, which may limit your flexibility if you need to move.")

  const LateFeeCharges: FlagDef :=
    FlagDef(
      "late-fee-charges",
      "Late fee charges",
      Red,
      [
        "late fee",
        "late charge",
        "after the due date",
        "grace period",
        "additional charge",
        "per day late",
        "percentage of rent"
      ],
      Some("(late fee|late charge).{0,80}(\\$\\d+|\\d+%|percent)"),
      "Late fees can accumulate quickly and commonly range from fixed amounts to percentages of monthly rent.")

  const RepairResponsibility: FlagDef :=
    FlagDef(
      "repair-responsibility",
      "Repair responsibility threshold",
      Green,
      [
        "repairs under",
        "tenant responsible for repairs",
        "minor repairs",
        "maintenance under",
        "less than $",
        "small repairs",
        "landlord covers major"
      ],
      Some("(repair|maintenance).{0,50}(under|less than|below).{0,30}\\$\\d+"),
      "Tenants are often responsible for small repairs below a dollar threshold, which is standard practice in most residential leases.")

  const SecurityDepositDeductions: FlagDef :=
    FlagDef(
      "security-deposit-deductions",
      "Security deposit deductions",
      Yellow,
      [
        "security deposit",
        "deducted from deposit",
        "damages beyond normal wear",
        "cleaning fees",
        "unpaid rent",
        "return of deposit",
        "withhold from deposit"
      ],
      Some("(security deposit|deposit).{0,100}(deduct|withhold|retain|charge)"),
      "Landlords may deduct from your security deposit for damages, unpaid rent, or cleaning, though normal wear and tear is typically excluded.")

  const LandlordEntryRights: FlagDef :=
    FlagDef(
      "landlord-entry-rights",
      "Landlord entry rights",
      Yellow,
      [
        "right to enter",
        "access to premises",
        "reasonable notice",
        "24 hours notice",
        "inspect the property",
        "emergency access",
        "enter without notice"
      ],
      Some("(enter|access).{0,50}(premises|unit|property).{0,50}(notice|hours|emergency)"),
      "Landlords commonly have the right to enter with reasonable notice, though emergency situations may allow immediate access.")

  const RentIncreaseTerms: FlagDef :=
    FlagDef(
      "rent-increase-terms",
      "Rent increase terms",
      Red,
      [
        "rent increase",
        "increase the rent",
        "raise the rent",
        "upon renewal",
        "notice of increase",
        "adjust the rent",
        "escalation clause"
      ],
      Some("(rent|monthly payment).{0,50}(increase|raise|adjust|escalat)"),
      "Rent increases upon renewal are common and may significantly affect your housing costs, often requiring advance notice.")

  const CollectionsLiquidatedDamages: FlagDef :=
    FlagDef(
      "collections-liquidated-damages",
      "Collections or liquidated damages",
      Red,
      [
        "liquidated damages",
        "collection agency",
        "attorney fees",
        "legal fees",
        "costs of collection",
        "recover all costs",
        "reasonable attorney fees"
      ],
      Some("(liquidated damages|collection|attorney.{0,20}fees|legal.{0,20}fees)"),
      "Lease violations may result in collections actions or liquidated damages, which often include legal fees and collection costs.")

  /** The ids of the rules, in table order. */
  function Ids(defs: seq<FlagDef>): (r: seq<string>)
    ensures |r| == |defs|
    ensures forall i :: 0 <= i < |defs| ==> r[i] == defs[i].id
  {
    seq(|defs|, i requires 0 <= i < |defs| => defs[i].id)
  }

  /** Pairwise distinct strings. */
  predicate Distinct(xs: seq<string>) {
    forall i, j :: 0 <= i < j < |xs| ==> xs[i] != xs[j]
  }

  /** Every keyword list is non-empty, and every keyword is non-empty without outer
      whitespace. */
  predicate KeywordsOk(d: FlagDef) {
    |d.keywords| > 0 && forall k :: 0 <= k < |d.keywords| ==> d.keywords[k] != [] && NoOuterSpace(d.keywords[k])
  }

  /** The table holds exactly these ten rules, in this order. */
  lemma TableIds()
    ensures |FlagDefs| == 10
    ensures Ids(FlagDefs) == [
      "early-termination-penalty", "automatic-renewal", "notice-period-requirement",
      "sublease-restriction", "late-fee-charges", "repair-responsibility",
      "security-deposit-deductions", "landlord-entry-rights", "rent-increase-terms",
      "collections-liquidated-damages"]
  {
  }

  /** No two rules share an id. */
  lemma IdsDistinct()
    ensures Distinct(Ids(FlagDefs))
  {
    TableIds();
  }

  /** Rules 0, 4, 8 and 9 (early termination, late fees, rent increases, collections)
      are red, rule 5 (repair responsibility) is green, the other five are yellow. */
  lemma Severities()
    ensures forall i :: 0 <= i < |FlagDefs| ==>
              FlagDefs[i].severity == if i in {0, 4, 8, 9} then Red else if i == 5 then Green else Yellow
  {
  }

  /** Every rule has keywords, and every keyword is non-empty without outer whitespace. */
  lemma KeywordsWellFormed()
    ensures forall i :: 0 <= i < |FlagDefs| ==> KeywordsOk(FlagDefs[i])
  {
    EarlyTerminationPenaltyKeywordsOk();
    AutomaticRenewalKeywordsOk();
    NoticePeriodRequirementKeywordsOk();
    SubleaseRestrictionKeywordsOk();
    LateFeeChargesKeywordsOk();
    RepairResponsibilityKeywordsOk();
    SecurityDepositDeductionsKeywordsOk();
    LandlordEntryRightsKeywordsOk();
    RentIncreaseTermsKeywordsOk();
    CollectionsLiquidatedDamagesKeywordsOk();
  }

  lemma EarlyTerminationPenaltyKeywordsOk()
    ensures KeywordsOk(EarlyTerminationPenalty)
  {
  }

  lemma AutomaticRenewalKeywordsOk()
    ensures KeywordsOk(AutomaticRenewal)
  {
  }

  lemma NoticePeriodRequirementKeywordsOk()
    ensures KeywordsOk(NoticePeriodRequirement)
  {
  }

  lemma SubleaseRestrictionKeywordsOk()
    ensures KeywordsOk(SubleaseRestriction)
  {
  }

  lemma LateFeeChargesKeywordsOk()
    ensures KeywordsOk(LateFeeCharges)
  {
  }

  lemma RepairResponsibilityKeywordsOk()
    ensures KeywordsOk(RepairResponsibility)
  {
  }

  lemma SecurityDepositDeductionsKeywordsOk()
    ensures KeywordsOk(SecurityDepositDeductions)
  {
  }

  lemma LandlordEntryRightsKeywordsOk()
    ensures KeywordsOk(LandlordEntryRights)
  {
  }

  lemma RentIncreaseTermsKeywordsOk()
    ensures KeywordsOk(RentIncreaseTerms)
  {
  }

  lemma CollectionsLiquidatedDamagesKeywordsOk()
    ensures KeywordsOk(CollectionsLiquidatedDamages)
  {
  }

  /** Every rule defines a non-empty regular expression, though the type allows none. */
  lemma EveryRuleHasRegex()
    ensures forall i :: 0 <= i < |FlagDefs| ==> FlagDefs[i].regex.Some? && FlagDefs[i].regex.value != []
  {
  }
}
