/** Commissions owed on won proposals and the payments made against them.
    A commission moves from "A pagar" (to pay) through "Pago parcialmente"
    (partly paid) to "Pago" (paid); every accepted payment keeps
    paid + pending equal to the total. */
module CommissionManagement {
  import opened Common

  datatype Status = APagar | PagoParcialmente | Pago

  datatype Commission = Commission(
    id: string,
    proposalId: string,
    proposalClient: string,
    commercial: string,
    totalValue: real,
    paidValue: real,
    pendingValue: real,
    status: Status,
    paymentDate: Option<string>,
    notes: Option<string>)

  /** The dialog's form; `paymentDate` is "" until a date is picked. */
  datatype CommissionForm = CommissionForm(
    proposalId: string,
    commercial: string,
    paymentAmount: Entry,
    paymentDate: string,
    notes: string)

  /** A won proposal a commission can be raised for. */
  datatype WonProposal = WonProposal(id: string, client: string, totalCommission: real)

  datatype CommissionError = MissingFields | UnknownProposal | DuplicateProposal

  datatype PaymentError = MissingPayment | InvalidAmount

  /** paid + pending = total. */
  predicate Conserved(c: Commission)
  {
    c.paidValue + c.pendingValue == c.totalValue
  }

  /** The invariant every handler keeps: conserved, with nothing negative paid or pending. */
  predicate Valid(c: Commission)
  {
    Conserved(c) && c.paidValue >= 0.0 && c.pendingValue >= 0.0
  }

  /** `formData.notes || undefined`. */
  function OptionalText(s: string): Option<string>
  {
    if s == "" then None else Some(s)
  }

  /** The record `handleSubmit` builds for a proposal: nothing paid on a new one. */
  function CommissionData(form: CommissionForm, proposal: WonProposal, editing: Option<Commission>, newId: string)
    : (c: Commission)
    ensures c.totalValue == proposal.totalCommission && Conserved(c)
    ensures editing.None? ==> c.paidValue == 0.0 && c.pendingValue == proposal.totalCommission && c.status == APagar
    ensures editing.Some? ==> c.paidValue == editing.value.paidValue && c.status == editing.value.status
    ensures c.proposalId == form.proposalId && c.proposalClient == proposal.client && c.commercial == form.commercial
    ensures c.id == if editing.Some? && editing.value.id != "" then editing.value.id else newId
    ensures c.paymentDate == (if editing.Some? then editing.value.paymentDate else None)
    ensures c.notes == OptionalText(form.notes)
  {
    var paid := if editing.Some? then editing.value.paidValue else 0.0;
    Commission(
      if editing.Some? && editing.value.id != "" then editing.value.id else newId,
      form.proposalId, proposal.client, form.commercial,
      proposal.totalCommission, paid, proposal.totalCommission - paid,
      if editing.Some? then editing.value.status else APagar,
      if editing.Some? then editing.value.paymentDate else None,
      OptionalText(form.notes))
  }

  /** `handleSubmit()`: requires a proposal and a commercial, a proposal that
      is among the won ones, and (when creating) no commission for it yet. */
  function HandleSubmit(commissions: seq<Commission>, form: CommissionForm, editing: Option<Commission>,
                        won: seq<WonProposal>, newId: string)
    : (r: Result<seq<Commission>, CommissionError>)
    ensures r == Err(MissingFields) <==> form.proposalId == "" || form.commercial == ""
    ensures r == Err(UnknownProposal) <==>
              form.proposalId != "" && form.commercial != ""
              && forall i :: 0 <= i < |won| ==> won[i].id != form.proposalId
    ensures r == Err(DuplicateProposal) <==>
              form.proposalId != "" && form.commercial != ""
              && (exists i :: 0 <= i < |won| && won[i].id == form.proposalId)
              && editing.None?
              && exists i :: 0 <= i < |commissions| && commissions[i].proposalId == form.proposalId
    ensures r.Ok? && editing.None? ==>
              Find(won, (p: WonProposal) => p.id == form.proposalId).Some?
              && r.value == commissions + [CommissionData(form, Find(won, (p: WonProposal) => p.id == form.proposalId).value,
                                                          editing, newId)]
    ensures r.Ok? && editing.None? ==>
              |r.value| == |commissions| + 1 && r.value[..|commissions|] == commissions
              && var c := r.value[|commissions|];
                 c.proposalId == form.proposalId && c.paidValue == 0.0
                 && c.pendingValue == c.totalValue && c.status == APagar
                 && exists i :: 0 <= i < |won| && won[i].id == form.proposalId && won[i].totalCommission == c.totalValue
    // The edit path: the page's dialog button calls `processPayment` instead
    // while a commission is being edited, so the page never reaches it.
    ensures r.Ok? && editing.Some? ==>
              Find(won, (p: WonProposal) => p.id == form.proposalId).Some?
              && |r.value| == |commissions|
              && forall i :: 0 <= i < |commissions| ==>
                   r.value[i] == if commissions[i].id == editing.value.id
                                 then CommissionData(form, Find(won, (p: WonProposal) => p.id == form.proposalId).value,
                                                     editing, newId)
                                 else commissions[i]
  {
    if form.proposalId == "" || form.commercial == "" then Err(MissingFields)
    else
      match Find(won, (p: WonProposal) => p.id == form.proposalId)
      case None => Err(UnknownProposal)
      case Some(proposal) =>
        if Find(commissions, (c: Commission) => c.proposalId == form.proposalId).Some? && editing.None? then
          Err(DuplicateProposal)
        else
          var data := CommissionData(form, proposal, editing, newId);
          if editing.Some? then Ok(ReplaceWhere(commissions, (c: Commission) => c.id == editing.value.id, data))
          else Ok(commissions + [data])
  }

  /** Creating a commission keeps every record valid, provided the proposal's total is not negative. */
  lemma SubmitKeepsValid(commissions: seq<Commission>, form: CommissionForm, won: seq<WonProposal>, newId: string)
    requires forall i :: 0 <= i < |commissions| ==> Valid(commissions[i])
    requires forall i :: 0 <= i < |won| ==> won[i].totalCommission >= 0.0
    ensures var r := HandleSubmit(commissions, form, None, won, newId);
            r.Ok? ==> forall i :: 0 <= i < |r.value| ==> Valid(r.value[i])
  {
  }

  /** `resetForm()`: every field of the dialog blank. */
  function ResetForm(): (form: CommissionForm)
    ensures form.proposalId == "" && form.commercial == "" && form.notes == ""
    ensures form.paymentAmount.Blank? && form.paymentDate == ""
  {
    CommissionForm("", "", Blank, "", "")
  }

  /** A cleared dialog is turned away by `handleSubmit`, whatever else holds. */
  lemma ResetFormRejected(commissions: seq<Commission>, editing: Option<Commission>, won: seq<WonProposal>,
                          newId: string)
    ensures HandleSubmit(commissions, ResetForm(), editing, won, newId) == Err(MissingFields)
  {
  }

  /** `handlePayment(commission)`: the dialog opens on the commission (it
      becomes the edited one) showing its proposal, commercial and notes;
      the amount and the date start blank. */
  function HandlePayment(c: Commission): (form: CommissionForm)
    ensures form.proposalId == c.proposalId && form.commercial == c.commercial
    ensures form.paymentAmount.Blank? && form.paymentDate == ""
    ensures form.notes == if c.notes.Some? then c.notes.value else ""
  {
    CommissionForm(c.proposalId, c.commercial, Blank, "", if c.notes.Some? then c.notes.value else "")
  }

  /** A payment saved with the notes the dialog was opened with keeps the
      commission's notes (a stored empty note is the one that does not survive). */
  lemma PaymentKeepsNotes(c: Commission, amount: real, date: string)
    requires c.notes != Some("")
    ensures Paid(c, amount, HandlePayment(c).(paymentAmount := Num(amount), paymentDate := date)).notes == c.notes
  {
  }

  /** The status after a payment: "Pago" once nothing is pending, otherwise
      "Pago parcialmente" if anything has been paid. */
  function StatusAfter(newPaid: real, newPending: real): Status
  {
    if newPending == 0.0 then Pago else if newPaid > 0.0 then PagoParcialmente else APagar
  }

  /** The record an accepted payment of `amount` leaves. */
  function Paid(c: Commission, amount: real, form: CommissionForm): (u: Commission)
    ensures u.paidValue == c.paidValue + amount
    ensures Conserved(u) && u.totalValue == c.totalValue
    ensures u.status == Pago <==> u.pendingValue == 0.0
    ensures u.id == c.id && u.proposalId == c.proposalId && u.commercial == c.commercial
    ensures u.paymentDate == Some(form.paymentDate) && u.notes == OptionalText(form.notes)
    ensures u.proposalClient == c.proposalClient
    // a payment within what is pending keeps the record valid and leaves "A pagar" behind
    ensures Valid(c) && 0.0 < amount <= c.pendingValue ==> Valid(u) && u.status != APagar
  {
    var newPaid := c.paidValue + amount;
    var newPending := c.totalValue - newPaid;
    c.(paidValue := newPaid, pendingValue := newPending, status := StatusAfter(newPaid, newPending),
       paymentDate := Some(form.paymentDate), notes := OptionalText(form.notes))
  }

  /** `processPayment()`: the payment needs an amount and a date, and the
      amount must be positive and at most what is pending; the record with
      the edited id is then replaced, every other record is left alone. */
  method ProcessPayment(commissions: seq<Commission>, editing: Option<Commission>, form: CommissionForm)
    returns (r: Result<seq<Commission>, PaymentError>)
    ensures r == Err(MissingPayment) <==> editing.None? || form.paymentAmount.Blank? || form.paymentDate == ""
    ensures r == Err(InvalidAmount) <==>
              editing.Some? && form.paymentAmount.Num? && form.paymentDate != ""
              && (form.paymentAmount.value <= 0.0 || form.paymentAmount.value > editing.value.pendingValue)
    ensures r.Ok? ==>
              |r.value| == |commissions|
              && forall i :: 0 <= i < |commissions| ==>
                   r.value[i] == if commissions[i].id == editing.value.id
                                 then Paid(editing.value, form.paymentAmount.value, form)
                                 else commissions[i]
    // a commission with nothing pending takes no payment
    ensures editing.Some? && editing.value.pendingValue <= 0.0 ==> r.Err?
  {
    if editing.None? || form.paymentAmount.Blank? || form.paymentDate == "" {
      return Err(MissingPayment);
    }
    var c := editing.value;
    var paymentAmount := form.paymentAmount.value;
    if paymentAmount <= 0.0 || paymentAmount > c.pendingValue {
      return Err(InvalidAmount);
    }
    var newPaidValue := c.paidValue + paymentAmount;
    var newPendingValue := c.totalValue - newPaidValue;
    var newStatus := APagar;
    if newPendingValue == 0.0 {
      newStatus := Pago;
    } else if newPaidValue > 0.0 {
      newStatus := PagoParcialmente;
    }
    var updated := c.(paidValue := newPaidValue, pendingValue := newPendingValue, status := newStatus,
                      paymentDate := Some(form.paymentDate), notes := OptionalText(form.notes));
    assert updated == Paid(c, paymentAmount, form);
    r := Ok(ReplaceWhere(commissions, (x: Commission) => x.id == c.id, updated));
  }

  /** `commissions.reduce((sum, c) => sum + c.totalValue, 0)`. */
  function TotalCommissions(cs: seq<Commission>): real
    decreases |cs|
  {
    if |cs| == 0 then 0.0 else TotalCommissions(cs[..|cs| - 1]) + cs[|cs| - 1].totalValue
  }

  function TotalPaid(cs: seq<Commission>): real
    decreases |cs|
  {
    if |cs| == 0 then 0.0 else TotalPaid(cs[..|cs| - 1]) + cs[|cs| - 1].paidValue
  }

  function TotalPending(cs: seq<Commission>): real
    decreases |cs|
  {
    if |cs| == 0 then 0.0 else TotalPending(cs[..|cs| - 1]) + cs[|cs| - 1].pendingValue
  }

  /** When every record is conserved, the pending total is what remains of the
      commissions once the paid total is taken off. */
  lemma {:induction false} SummaryConserved(cs: seq<Commission>)
    requires forall i :: 0 <= i < |cs| ==> Conserved(cs[i])
    ensures TotalPending(cs) == TotalCommissions(cs) - TotalPaid(cs)
    decreases |cs|
  {
    if |cs| > 0 {
      SummaryConserved(cs[..|cs| - 1]);
      assert Conserved(cs[|cs| - 1]);
    }
  }

  /** The two commissions the list starts with; both are valid. */
  function SeedCommissions(): (cs: seq<Commission>)
    ensures forall i :: 0 <= i < |cs| ==> Valid(cs[i])
  {
    [ Commission("1", "1", "TechCorp Solutions", "João Silva", 112.50, 0.0, 112.50, APagar, None, None),
      Commission("2", "2", "InnovaTech", "Maria Santos", 240.0, 100.0, 140.0, PagoParcialmente, Some("2024-05-25"), None) ]
  }
}
