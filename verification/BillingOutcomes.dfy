/** When each billing call is accepted, what it then leaves in the ledger, and that a refusal leaves nothing. */
module BillingOutcomes {
  import opened Basics
  import opened Sums
  import opened BillingModel
  import opened InvoiceNumbering
  import opened LedgerInvariant
  import InvoiceNumber
  import Tax

  /** The stored amount is the nearest whole number of cents, a half going away from zero. */
  lemma StoredAmountIsNearest(x: real, cents: int)
    ensures RoundCents(x) == cents
       <==> if x >= 0.0 then cents as real - 0.5 <= x < cents as real + 0.5
            else cents as real - 0.5 < x <= cents as real + 0.5
  {
  }

  // ---- recording a payment ----

  /** The method is a live one of the tenant, or given as text. */
  predicate MethodGiven(l: Ledger, dto: RecordPayment, tenant: string) {
    if dto.paymentMethodId.None? then dto.methodText != ""
    else
      var id := dto.paymentMethodId.value;
      id in l.reference.paymentMethods && l.reference.paymentMethods[id].tenantId == tenant
      && !l.reference.paymentMethods[id].deleted
  }

  /** An invoice of the tenant that is not void and still owes at least this amount. */
  predicate Owes(l: Ledger, id: nat, amount: real, tenant: string) {
    id < |l.invoices| && l.invoices[id].tenantId == tenant && l.invoices[id].status != VOID
    && amount <= (l.invoices[id].total - l.invoices[id].amountPaid) as real
  }

  predicate RecordAllowed(l: Ledger, dto: RecordPayment, tenant: string) {
    MethodGiven(l, dto, tenant) && dto.amount > 0.0
    && (dto.invoiceId.Some? ==> Owes(l, dto.invoiceId.value, dto.amount, tenant))
  }

  /** The row that a recorded payment becomes. */
  function PaymentRow(l: Ledger, dto: RecordPayment, tenant: string): Payment
    requires MethodGiven(l, dto, tenant)
  {
    Payment(tenant, dto.invoiceId, dto.paymentMethodId,
            if dto.paymentMethodId.None? then dto.methodText else l.reference.paymentMethods[dto.paymentMethodId.value].name,
            RoundCents(dto.amount))
  }

  /** A credit within the balance never meets a CHECK on the invoice. */
  lemma CreditIsAccepted(v: Invoice, amount: real)
    requires InvoiceAccepted(v) && TotalsOk(v) && amount > 0.0 && AcceptsPayment(v, amount)
    ensures InvoiceAccepted(Credited(v, amount)) && 0 <= RoundCents(amount) <= v.total - v.amountPaid
    ensures FitsMoney(RoundCents(amount))
    ensures Credited(v, amount)
         == v.(amountPaid := v.amountPaid + RoundCents(amount),
               status := if amount == (v.total - v.amountPaid) as real then PAID else v.status)
  {
    CreditedOk(v, amount);
    RoundWithin(amount, v.total - v.amountPaid);
  }

  /** The allocation is written unless it rounds to nothing: that is the one CHECK left to refuse it. */
  lemma AllocationOutcome(l: Ledger, paymentId: nat, invoiceId: nat, amount: real, tenant: string)
    requires InvoicesOk(l.invoices) && amount > 0.0 && Owes(l, invoiceId, amount, tenant)
    ensures AllocateTo(l, paymentId, invoiceId, amount, tenant)
         == if amount < 0.5 then None
            else Some(l.(allocations := l.allocations + [Allocation(tenant, paymentId, invoiceId, RoundCents(amount))],
                         invoices := l.invoices[invoiceId := Credited(l.invoices[invoiceId], amount)]))
  {
    assert InvoiceAccepted(l.invoices[invoiceId]) && TotalsOk(l.invoices[invoiceId]);
    CreditIsAccepted(l.invoices[invoiceId], amount);
  }

  /**
   A payment is created if and only if the request is allowed and what is to be stored fits its columns:
   with an invoice at least half a cent, which is the least that does not round to nothing, otherwise less
   than the column's width. A request that is not allowed is a bad request; a refusal writes no row.
   */
  lemma RecordOutcome(l: Ledger, dto: RecordPayment, tenant: string)
    requires InvoicesOk(l.invoices)
    ensures var (after, reply) := RecordStep(l, dto, tenant);
            (reply.Created? <==> RecordAllowed(l, dto, tenant)
                                 && if dto.invoiceId.Some? then dto.amount >= 0.5 else dto.amount < 999_999_999_999.5)
            && (reply == BadRequest <==> !RecordAllowed(l, dto, tenant))
            && (reply.Created? || reply == BadRequest || reply == ConstraintViolation)
            && (!reply.Created? ==> after == l)
  {
    if RecordAllowed(l, dto, tenant) && dto.invoiceId.Some? {
      var row := PaymentRow(l, dto, tenant);
      var id := dto.invoiceId.value;
      assert InvoiceAccepted(l.invoices[id]) && TotalsOk(l.invoices[id]);
      CreditIsAccepted(l.invoices[id], dto.amount);
      AllocationOutcome(l.(payments := l.payments + [row]), |l.payments|, id, dto.amount, tenant);
    }
  }

  /** A created payment is the last row, under the id that was answered, for the stored amount of the request. */
  lemma RecordedRow(l: Ledger, dto: RecordPayment, tenant: string)
    requires InvoicesOk(l.invoices) && RecordStep(l, dto, tenant).1.Created?
    ensures MethodGiven(l, dto, tenant)
    ensures var (after, reply) := RecordStep(l, dto, tenant);
            reply.id == |l.payments| && after.payments == l.payments + [PaymentRow(l, dto, tenant)]
            && after.reference == l.reference
            && (dto.invoiceId.None? ==> after.invoices == l.invoices && after.allocations == l.allocations)
            && (dto.invoiceId.Some? ==>
                  dto.invoiceId.value < |l.invoices|
                  && after.allocations
                     == l.allocations + [Allocation(tenant, |l.payments|, dto.invoiceId.value, RoundCents(dto.amount))]
                  && after.invoices == l.invoices[dto.invoiceId.value := Credited(l.invoices[dto.invoiceId.value], dto.amount)])
  {
    RecordOutcome(l, dto, tenant);
    if dto.invoiceId.Some? {
      var inserted := l.(payments := l.payments + [PaymentRow(l, dto, tenant)]);
      AllocationOutcome(inserted, |l.payments|, dto.invoiceId.value, dto.amount, tenant);
    }
  }

  lemma {:induction false} SumOfLonger(n: nat, f: nat -> int, g: nat -> int)
    requires forall k: nat :: k < n ==> f(k) == g(k)
    ensures SumBelow(n, f) == SumBelow(n, g)
  {
    if n > 0 { SumOfLonger(n - 1, f, g); }
  }

  /** One more payment adds its amount to what its own tenant has received, and to no other's. */
  lemma AppendedIsReceived(l: Ledger, after: Ledger, row: Payment, tenant: string)
    requires after.payments == l.payments + [row]
    ensures ReceivedBy(after, tenant) == ReceivedBy(l, tenant) + if row.tenantId == tenant then row.amount else 0
  {
    var before := (p: nat) => if p < |l.payments| && l.payments[p].tenantId == tenant then l.payments[p].amount else 0;
    var longer := (p: nat) => if p < |after.payments| && after.payments[p].tenantId == tenant then after.payments[p].amount else 0;
    forall k: nat | k < |l.payments| ensures before(k) == longer(k) {}
    SumOfLonger(|l.payments|, before, longer);
    assert longer(|l.payments|) == if row.tenantId == tenant then row.amount else 0;
  }

  /** What is recorded is received: the tenant's total rises by the stored amount, and nobody else's moves. */
  lemma RecordIsReceived(l: Ledger, dto: RecordPayment, tenant: string, anyTenant: string)
    requires InvoicesOk(l.invoices)
    ensures var (after, reply) := RecordStep(l, dto, tenant);
            ReceivedBy(after, anyTenant)
            == ReceivedBy(l, anyTenant) + if reply.Created? && anyTenant == tenant then RoundCents(dto.amount) else 0
  {
    RecordOutcome(l, dto, tenant);
    if RecordStep(l, dto, tenant).1.Created? {
      RecordedRow(l, dto, tenant);
      AppendedIsReceived(l, RecordStep(l, dto, tenant).0, PaymentRow(l, dto, tenant), anyTenant);
    }
  }

  // ---- allocating ----

  predicate AllocateAllowed(l: Ledger, paymentId: nat, invoiceId: nat, amount: real, tenant: string) {
    amount > 0.0 && paymentId < |l.payments| && l.payments[paymentId].tenantId == tenant
    && Owes(l, invoiceId, amount, tenant)
    && amount <= (l.payments[paymentId].amount - SumAt(ByPayment(l.allocations), paymentId)) as real
  }

  /**
   An allocation is accepted if and only if the payment is the tenant's and has this much left, the
   invoice owes it, and it does not round to nothing; then one allocation is written and one invoice credited.
   */
  lemma AllocateOutcome(l: Ledger, paymentId: nat, invoiceId: nat, amount: real, tenant: string)
    requires LedgerOk(l)
    ensures var (after, reply) := AllocateStep(l, paymentId, invoiceId, amount, tenant);
            (reply == Updated <==> AllocateAllowed(l, paymentId, invoiceId, amount, tenant) && amount >= 0.5)
            && (reply == ConstraintViolation <==> AllocateAllowed(l, paymentId, invoiceId, amount, tenant) && amount < 0.5)
            && (reply == NotFound <==> amount > 0.0 && !PaymentFound(l, paymentId, tenant))
            && (reply == Updated ==>
                  after == l.(allocations := l.allocations + [Allocation(tenant, paymentId, invoiceId, RoundCents(amount))],
                              invoices := l.invoices[invoiceId := Credited(l.invoices[invoiceId], amount)]))
            && (reply != Updated ==> after == l)
  {
    if paymentId < |l.payments| && l.payments[paymentId].tenantId == tenant {
      TenantFilterIsHarmless(l, |l.allocations|, paymentId);
      assert l.allocations[..|l.allocations|] == l.allocations;
    }
    if amount > 0.0 && Owes(l, invoiceId, amount, tenant) {
      AllocationOutcome(l, paymentId, invoiceId, amount, tenant);
    }
  }

  // ---- rewriting an invoice ----

  predicate Editable(l: Ledger, id: nat, tenant: string) {
    id < |l.invoices| && l.invoices[id].tenantId == tenant && l.invoices[id].status == DRAFT
  }

  /** The tax rate named, if one is, is a live one of the tenant. */
  predicate RateGiven(l: Ledger, rateId: Option<nat>, tenant: string) {
    rateId.None? ||
    (rateId.value in l.reference.taxRates && l.reference.taxRates[rateId.value].tenantId == tenant
     && !l.reference.taxRates[rateId.value].deleted)
  }

  /** The tax of an invoice once it has been updated. */
  function NewTax(l: Ledger, v: Invoice, rateId: Option<nat>, tenant: string): int
    requires RateGiven(l, rateId, tenant)
  {
    if rateId.None? then v.tax else Tax.CalculateTax(v.subtotal, l.reference.taxRates[rateId.value].rate)
  }

  /**
   An update is accepted if and only if the invoice is a draft of the tenant, the rate exists, and the new
   total still covers what was paid and fits its column. It rewrites rate, tax, total and due date of that
   one row, each only if it was given, and a refusal rewrites nothing.
   */
  lemma UpdateOutcome(l: Ledger, id: nat, dto: UpdateInvoice, tenant: string)
    requires LedgerOk(l)
    ensures var (after, reply) := UpdateStep(l, id, dto, tenant);
            (reply == NotFound <==> !InvoiceFound(l, id, tenant))
            && (reply == BadRequest <==>
                  InvoiceFound(l, id, tenant) && !(Editable(l, id, tenant) && RateGiven(l, dto.taxRateId, tenant)))
            && (Editable(l, id, tenant) && RateGiven(l, dto.taxRateId, tenant) ==>
                  var v := l.invoices[id];
                  var tax := NewTax(l, v, dto.taxRateId, tenant);
                  reply == (if v.amountPaid <= v.subtotal + tax < 1_000_000_000_000 then Updated else ConstraintViolation)
                  && (reply == Updated ==>
                        after == l.(invoices := l.invoices[id := v.(
                          taxRateId := if dto.taxRateId.Some? then dto.taxRateId else v.taxRateId,
                          dueDate := if dto.dueDate.Some? then dto.dueDate else v.dueDate,
                          tax := tax, total := v.subtotal + tax)])))
            && (reply != Updated ==> after == l)
  {
    if Editable(l, id, tenant) && RateGiven(l, dto.taxRateId, tenant) {
      var v := l.invoices[id];
      assert InvoiceAccepted(v) && TotalsOk(v);
      if dto.taxRateId.Some? { Tax.TaxWithinSubtotal(v.subtotal, l.reference.taxRates[dto.taxRateId.value].rate); }
    }
  }

  /** Issuing stamps status and date of one draft, voiding the status of one unpaid invoice, and nothing else. */
  lemma IssueAndVoidOutcome(l: Ledger, id: nat, tenant: string, today: int)
    requires LedgerOk(l)
    ensures InvoiceFound(l, id, tenant) ==>
              IssueStep(l, id, tenant, today)
              == (if l.invoices[id].status == DRAFT
                  then (l.(invoices := l.invoices[id := l.invoices[id].(status := SENT, issuedDate := Some(today))]), Updated)
                  else (l, BadRequest))
    ensures InvoiceFound(l, id, tenant) ==>
              VoidStep(l, id, tenant)
              == (if l.invoices[id].status != PAID && l.invoices[id].status != VOID
                  then (l.(invoices := l.invoices[id := l.invoices[id].(status := VOID)]), Updated)
                  else (l, BadRequest))
    ensures !InvoiceFound(l, id, tenant) ==>
              IssueStep(l, id, tenant, today) == (l, NotFound) && VoidStep(l, id, tenant) == (l, NotFound)
  {
    if id < |l.invoices| { assert InvoiceAccepted(l.invoices[id]) && TotalsOk(l.invoices[id]); }
  }

  // ---- creating an invoice ----

  /** The order is a live one of the tenant, and so is the tax rate if one is named. */
  predicate CreateAllowed(l: Ledger, dto: CreateInvoice, tenant: string) {
    dto.orderId in l.reference.orders && l.reference.orders[dto.orderId].tenantId == tenant
    && !l.reference.orders[dto.orderId].deleted && RateGiven(l, dto.taxRateId, tenant)
  }

  /** Some attempt met no invoice of the same tenant and year between its count and its insert. */
  ghost predicate SomeQuietRound(rivals: seq<seq<Invoice>>, tenant: string, year: nat) {
    exists k :: 0 <= k < |rivals| && !HasSeries(rivals[k], tenant, year)
  }

  /** What is drafted for an allowed request. */
  ghost function DraftFor(l: Ledger, dto: CreateInvoice, tenant: string, year: nat): Invoice
    requires CreateAllowed(l, dto, tenant)
  {
    DraftInvoice(l, dto, tenant, year, "")
  }

  lemma RefusedDraftOutcome(l: Ledger, draft: Invoice, rivals: seq<seq<Invoice>>)
    requires rivals != [] && !InvoiceAccepted(draft)
    ensures InsertWithRetry(l, draft, rivals).1 == ConstraintViolation
  {
    RefusedDraft(l, draft, rivals);
  }

  /**
   How creating an invoice is answered: a bad request for an unknown order or tax rate, a refusal by a
   CHECK on the draft, a conflict exactly if every attempt met a rival, and otherwise a created row.
   */
  lemma CreateOutcome(l: Ledger, dto: CreateInvoice, tenant: string, year: nat, rivals: seq<seq<Invoice>>)
    requires Numbered(l.invoices) && rivals != []
    ensures var (after, reply) := CreateStep(l, dto, tenant, year, rivals);
            if !CreateAllowed(l, dto, tenant) then (after, reply) == (l, BadRequest)
            else if !InvoiceAccepted(DraftFor(l, dto, tenant, year)) then reply == ConstraintViolation
            else if SomeQuietRound(rivals, tenant, year) then reply.Created? else reply == Conflict
  {
    if CreateAllowed(l, dto, tenant) {
      var draft := DraftFor(l, dto, tenant, year);
      if InvoiceAccepted(draft) {
        RetryOutcome(l, draft, rivals);
        var k := FirstQuietRound(rivals, tenant, year);
        assert k < |rivals| ==> !HasSeries(rivals[k], tenant, year);
      } else {
        RefusedDraftOutcome(l, draft, rivals);
      }
    }
  }

  /** What the retry loop leaves when it creates a row: that row last, numbered after all rows before it. */
  lemma InsertedRow(l: Ledger, draft: Invoice, rivals: seq<seq<Invoice>>)
    requires Numbered(l.invoices) && InvoiceAccepted(draft) && InsertWithRetry(l, draft, rivals).1.Created?
    ensures var (after, reply) := InsertWithRetry(l, draft, rivals);
            |after.invoices| == reply.id + 1 && after == l.(invoices := after.invoices)
            && after.invoices[reply.id] == Numbering(draft, after.invoices[..reply.id])
  {
    RetryOutcome(l, draft, rivals);
    var k := FirstQuietRound(rivals, draft.tenantId, draft.year);
    if k < |rivals| {
      var others := WithRivals(l.invoices, rivals, k + 1);
      assert (others + [Numbering(draft, others)])[..|others|] == others;
    }
  }

  /** A created invoice is the last row, under the id that was answered: the draft with the next number of its series. */
  lemma CreatedRow(l: Ledger, dto: CreateInvoice, tenant: string, year: nat, rivals: seq<seq<Invoice>>)
    requires Numbered(l.invoices) && rivals != [] && CreateStep(l, dto, tenant, year, rivals).1.Created?
    ensures CreateAllowed(l, dto, tenant)
    ensures var (after, reply) := CreateStep(l, dto, tenant, year, rivals);
            |after.invoices| == reply.id + 1 && after == l.(invoices := after.invoices)
            && after.invoices[reply.id]
               == DraftFor(l, dto, tenant, year).(
                    number := InvoiceNumber.Format(year, CountForTenantAndYear(after.invoices[..reply.id], tenant, year) + 1))
  {
    CreateOutcome(l, dto, tenant, year, rivals);
    InsertedRow(l, DraftFor(l, dto, tenant, year), rivals);
  }
}
