/** The proposal form: its totals are derived from the lines (subtotal),
    the form's discount percentage (discount and total) and its commission
    percentage, which is taken of the discounted total. */
module ProposalForm {
  import opened Common
  import opened ProposalTypes
  import opened ProposalCalculations

  /** The header fields of the form that the totals and the checks use. */
  datatype ProposalFormState = ProposalFormState(
    number: string,
    clientId: Option<string>,
    templateId: Option<string>,
    subtotal: real,
    discountPercentage: real,
    discountAmount: real,
    total: real,
    commissionPercentage: real,
    commissionAmount: real)

  /** What the form hands on to be saved. */
  datatype Submission = Submission(proposal: ProposalFormState, lines: seq<ProposalLine>)

  datatype FormError = MissingNumberOrClient | MissingTemplate

  /** `calculateTotals(lines)`. */
  function CalculateTotals(form: ProposalFormState, lines: seq<ProposalLine>): (r: ProposalFormState)
    ensures r.subtotal == Subtotal(lines)
    ensures r.discountAmount * 100.0 == r.subtotal * form.discountPercentage
    ensures r.total == r.subtotal - r.discountAmount
    ensures r.commissionAmount * 100.0 == r.total * form.commissionPercentage
    ensures r == form.(subtotal := r.subtotal, discountAmount := r.discountAmount, total := r.total,
                       commissionAmount := r.commissionAmount)
  {
    var t := CalculateLineTotals(lines, form.discountPercentage);
    var discountAmount := t.subtotal * (form.discountPercentage / 100.0);
    var commissionAmount := t.total * (form.commissionPercentage / 100.0);
    form.(subtotal := t.subtotal, total := t.total, discountAmount := discountAmount,
          commissionAmount := commissionAmount)
  }

  /** Totals over a list of lines put together are the totals of each part added up. */
  lemma TotalsAdditive(form: ProposalFormState, a: seq<ProposalLine>, b: seq<ProposalLine>)
    ensures var ra, rb, rab := CalculateTotals(form, a), CalculateTotals(form, b), CalculateTotals(form, a + b);
            rab.subtotal == ra.subtotal + rb.subtotal
            && rab.discountAmount == ra.discountAmount + rb.discountAmount
            && rab.total == ra.total + rb.total
            && rab.commissionAmount == ra.commissionAmount + rb.commissionAmount
  {
    SubtotalAppend(a, b);
  }

  /** The commission is the commission percentage of the subtotal after the discount. */
  lemma CommissionOnDiscountedTotal(form: ProposalFormState, lines: seq<ProposalLine>)
    ensures var r := CalculateTotals(form, lines);
            r.commissionAmount * 10000.0
              == r.subtotal * (100.0 - form.discountPercentage) * form.commissionPercentage
  {
    var r := CalculateTotals(form, lines);
    assert r.total * 100.0 == r.subtotal * (100.0 - form.discountPercentage);
  }

  /** The effect run when the selected template changes: the form records
      its id, or none for no selection. */
  function SelectTemplate(form: ProposalFormState, selectedTemplate: string): (r: ProposalFormState)
    ensures r.templateId == (if selectedTemplate == "" then None else Some(selectedTemplate))
    ensures r.(templateId := form.templateId) == form
  {
    form.(templateId := if selectedTemplate == "" then None else Some(selectedTemplate))
  }

  /** `handleSubmit()`: the number and the client are required, and so is a
      template; the form and the lines are handed on as they are. */
  function HandleSubmit(form: ProposalFormState, lines: seq<ProposalLine>, selectedTemplate: string)
    : (r: Result<Submission, FormError>)
    ensures r == Err(MissingNumberOrClient) <==> form.number == "" || form.clientId.None? || form.clientId == Some("")
    ensures r == Err(MissingTemplate) <==>
              form.number != "" && form.clientId.Some? && form.clientId.value != "" && selectedTemplate == ""
    ensures r.Ok? ==> r.value == Submission(form, lines)
  {
    if form.number == "" || form.clientId.None? || form.clientId.value == "" then Err(MissingNumberOrClient)
    else if selectedTemplate == "" then Err(MissingTemplate)
    else Ok(Submission(form, lines))
  }

  /** Once the selection effect has run, an accepted proposal always names the selected template. */
  lemma SubmittedWithTemplate(form: ProposalFormState, lines: seq<ProposalLine>, selectedTemplate: string)
    ensures var r := HandleSubmit(SelectTemplate(form, selectedTemplate), lines, selectedTemplate);
            r.Ok? ==> selectedTemplate != "" && r.value.proposal.templateId == Some(selectedTemplate)
  {
  }
}
