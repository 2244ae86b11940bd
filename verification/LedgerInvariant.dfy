/** What every billing call keeps true of the ledger, and the conservation laws that follow. */
module LedgerInvariant {
  import opened Basics
  import opened Sums
  import opened BillingModel
  import opened InvoiceNumbering
  import Tax

  // ---- the allocations, keyed either way ----

  function ByInvoice(allocations: seq<Allocation>): (es: seq<Entry>)
    ensures |es| == |allocations|
    ensures forall i :: 0 <= i < |es| ==> es[i] == Entry(allocations[i].invoiceId, allocations[i].amount)
  {
    seq(|allocations|, i requires 0 <= i < |allocations| => Entry(allocations[i].invoiceId, allocations[i].amount))
  }

  function ByPayment(allocations: seq<Allocation>): (es: seq<Entry>)
    ensures |es| == |allocations|
    ensures forall i :: 0 <= i < |es| ==> es[i] == Entry(allocations[i].paymentId, allocations[i].amount)
  {
    seq(|allocations|, i requires 0 <= i < |allocations| => Entry(allocations[i].paymentId, allocations[i].amount))
  }

  // ---- the invariant, table by table ----

  /** Totals add up, and PAID means fully paid. */
  ghost predicate TotalsOk(v: Invoice) {
    v.subtotal == SumAmounts(v.items) && v.total == v.subtotal + v.tax - v.discount && v.discount == 0
    && (v.status == PAID ==> v.amountPaid == v.total)
  }

  ghost predicate InvoicesOk(invoices: seq<Invoice>) {
    forall i :: 0 <= i < |invoices| ==> InvoiceAccepted(invoices[i]) && TotalsOk(invoices[i])
  }

  ghost predicate AllocationOk(l: Ledger, a: Allocation) {
    a.amount > 0 && a.invoiceId < |l.invoices| && a.paymentId < |l.payments|
    && a.tenantId == l.invoices[a.invoiceId].tenantId && a.tenantId == l.payments[a.paymentId].tenantId
  }

  ghost predicate AllocationsOk(l: Ledger) {
    forall i :: 0 <= i < |l.allocations| ==> AllocationOk(l, l.allocations[i])
  }

  /** Every invoice's `amountPaid` is exactly what has been allocated to it. */
  ghost predicate InvoicesBalance(l: Ledger) {
    forall i :: 0 <= i < |l.invoices| ==> l.invoices[i].amountPaid == SumAt(ByInvoice(l.allocations), i)
  }

  /** No payment is allocated beyond its own amount. */
  ghost predicate PaymentsCover(l: Ledger) {
    forall p :: 0 <= p < |l.payments| ==> SumAt(ByPayment(l.allocations), p) <= l.payments[p].amount
  }

  ghost predicate RatesOk(r: Reference) {
    forall id :: id in r.taxRates ==> 0 <= r.taxRates[id].rate <= Tax.FULL_RATE
  }

  ghost predicate LedgerOk(l: Ledger) {
    InvoicesOk(l.invoices) && Numbered(l.invoices) && AllocationsOk(l)
    && InvoicesBalance(l) && PaymentsCover(l) && RatesOk(l.reference)
  }

  // ---- rounding at the column ----

  /** A positive amount within a whole number of cents is still within it once stored. */
  lemma RoundWithin(x: real, limit: int)
    requires 0.0 < x <= limit as real
    ensures 0 <= RoundCents(x) <= limit
  {
  }

  /** Crediting a whole balance rounds only the new amount. */
  lemma RoundShift(paid: int, x: real)
    requires paid >= 0 && x > 0.0
    ensures RoundCents(paid as real + x) == paid + RoundCents(x)
  {
  }

  // ---- allocating ----

  lemma AppendEntries(allocations: seq<Allocation>, a: Allocation)
    ensures ByInvoice(allocations + [a]) == ByInvoice(allocations) + [Entry(a.invoiceId, a.amount)]
    ensures ByPayment(allocations + [a]) == ByPayment(allocations) + [Entry(a.paymentId, a.amount)]
  {
  }

  /** The tenant filter of the aggregate loses nothing: a payment's allocations are all its own tenant's. */
  lemma {:induction false} TenantFilterIsHarmless(l: Ledger, n: nat, paymentId: nat)
    requires AllocationsOk(l) && n <= |l.allocations| && paymentId < |l.payments|
    ensures SumAllocations(l.allocations[..n], paymentId, l.payments[paymentId].tenantId)
         == SumAt(ByPayment(l.allocations[..n]), paymentId)
  {
    if n > 0 {
      TenantFilterIsHarmless(l, n - 1, paymentId);
      var a := l.allocations[n - 1];
      assert AllocationOk(l, a);
      assert l.allocations[..n] == l.allocations[..n - 1] + [a];
      AppendEntries(l.allocations[..n - 1], a);
      SumAtAppend(ByPayment(l.allocations[..n - 1]), Entry(a.paymentId, a.amount), paymentId);
    }
  }

  lemma CreditedOk(v: Invoice, amount: real)
    requires InvoiceAccepted(v) && TotalsOk(v) && amount > 0.0 && AcceptsPayment(v, amount)
    ensures TotalsOk(Credited(v, amount))
    ensures Credited(v, amount).amountPaid == v.amountPaid + RoundCents(amount)
    ensures Credited(v, amount) == v.(amountPaid := v.amountPaid + RoundCents(amount), status := Credited(v, amount).status)
  {
    RoundShift(v.amountPaid, amount);
    RoundWithin(amount, v.total - v.amountPaid);
  }

  lemma AllocateKeepsBalance(l: Ledger, after: Ledger, paymentId: nat, invoiceId: nat, amount: real, tenant: string)
    requires InvoicesBalance(l) && InvoicesOk(l.invoices) && invoiceId < |l.invoices|
    requires amount > 0.0 && AcceptsPayment(l.invoices[invoiceId], amount)
    requires AllocateTo(l, paymentId, invoiceId, amount, tenant) == Some(after)
    ensures InvoicesBalance(after)
  {
    var a := Allocation(tenant, paymentId, invoiceId, RoundCents(amount));
    AppendEntries(l.allocations, a);
    CreditedOk(l.invoices[invoiceId], amount);
    forall i | 0 <= i < |after.invoices| ensures after.invoices[i].amountPaid == SumAt(ByInvoice(after.allocations), i) {
      SumAtAppend(ByInvoice(l.allocations), Entry(invoiceId, a.amount), i);
    }
  }

  lemma AllocateKeepsCover(l: Ledger, after: Ledger, paymentId: nat, invoiceId: nat, amount: real, tenant: string)
    requires PaymentsCover(l) && invoiceId < |l.invoices| && paymentId < |l.payments|
    requires 0.0 < amount <= (l.payments[paymentId].amount - SumAt(ByPayment(l.allocations), paymentId)) as real
    requires AllocateTo(l, paymentId, invoiceId, amount, tenant) == Some(after)
    ensures PaymentsCover(after)
  {
    var a := Allocation(tenant, paymentId, invoiceId, RoundCents(amount));
    AppendEntries(l.allocations, a);
    RoundWithin(amount, l.payments[paymentId].amount - SumAt(ByPayment(l.allocations), paymentId));
    forall p | 0 <= p < |after.payments| ensures SumAt(ByPayment(after.allocations), p) <= after.payments[p].amount {
      SumAtAppend(ByPayment(l.allocations), Entry(paymentId, a.amount), p);
    }
  }

  lemma AllocateKeepsRows(l: Ledger, after: Ledger, paymentId: nat, invoiceId: nat, amount: real, tenant: string)
    requires InvoicesOk(l.invoices) && Numbered(l.invoices) && AllocationsOk(l)
    requires InvoiceFound(l, invoiceId, tenant) && PaymentFound(l, paymentId, tenant)
    requires amount > 0.0 && AcceptsPayment(l.invoices[invoiceId], amount)
    requires AllocateTo(l, paymentId, invoiceId, amount, tenant) == Some(after)
    ensures InvoicesOk(after.invoices) && Numbered(after.invoices) && AllocationsOk(after)
  {
    CreditedOk(l.invoices[invoiceId], amount);
    UpdateKeepsNumbered(l.invoices, invoiceId, Credited(l.invoices[invoiceId], amount));
    forall i | 0 <= i < |after.allocations| ensures AllocationOk(after, after.allocations[i]) {
      if i < |l.allocations| { assert AllocationOk(l, l.allocations[i]); }
    }
  }

  lemma AllocateToKeepsOk(l: Ledger, after: Ledger, paymentId: nat, invoiceId: nat, amount: real, tenant: string)
    requires LedgerOk(l) && InvoiceFound(l, invoiceId, tenant) && PaymentFound(l, paymentId, tenant)
    requires amount > 0.0 && AcceptsPayment(l.invoices[invoiceId], amount)
    requires amount <= (l.payments[paymentId].amount - SumAt(ByPayment(l.allocations), paymentId)) as real
    requires AllocateTo(l, paymentId, invoiceId, amount, tenant) == Some(after)
    ensures LedgerOk(after)
  {
    AllocateKeepsBalance(l, after, paymentId, invoiceId, amount, tenant);
    AllocateKeepsCover(l, after, paymentId, invoiceId, amount, tenant);
    AllocateKeepsRows(l, after, paymentId, invoiceId, amount, tenant);
  }

  lemma AllocateKeepsOk(l: Ledger, paymentId: nat, invoiceId: nat, amount: real, tenant: string)
    requires LedgerOk(l)
    ensures LedgerOk(AllocateStep(l, paymentId, invoiceId, amount, tenant).0)
  {
    var (after, reply) := AllocateStep(l, paymentId, invoiceId, amount, tenant);
    if reply == Updated {
      TenantFilterIsHarmless(l, |l.allocations|, paymentId);
      assert l.allocations[..|l.allocations|] == l.allocations;
      AllocateToKeepsOk(l, after, paymentId, invoiceId, amount, tenant);
    }
  }

  // ---- recording a payment ----

  /** A payment nothing has been allocated from yet. */
  lemma NewPaymentKeepsOk(l: Ledger, p: Payment)
    requires LedgerOk(l) && PaymentAccepted(p)
    ensures LedgerOk(l.(payments := l.payments + [p]))
    ensures SumAt(ByPayment(l.allocations), |l.payments|) == 0
  {
    var after := l.(payments := l.payments + [p]);
    forall i | 0 <= i < |l.allocations| ensures ByPayment(l.allocations)[i].key != |l.payments| && AllocationOk(after, l.allocations[i]) {
      assert AllocationOk(l, l.allocations[i]);
    }
    SumAtUnusedKey(ByPayment(l.allocations), |l.payments|);
  }

  lemma RecordKeepsOk(l: Ledger, dto: RecordPayment, tenant: string)
    requires LedgerOk(l)
    ensures LedgerOk(RecordStep(l, dto, tenant).0)
  {
    var (after, reply) := RecordStep(l, dto, tenant);
    if reply.Created? {
      var p := after.payments[|l.payments|];
      var inserted := l.(payments := l.payments + [p]);
      NewPaymentKeepsOk(l, p);
      if dto.invoiceId.Some? {
        var v := l.invoices[dto.invoiceId.value];
        FullAllocationFits(v, dto.amount);
        AllocateWholePayment(inserted, after, |l.payments|, dto.invoiceId.value, dto.amount, tenant);
      }
    }
  }

  lemma FullAllocationFits(v: Invoice, amount: real)
    requires 0.0 < amount && AcceptsPayment(v, amount)
    ensures RoundCents(amount) <= v.total - v.amountPaid
  {
    RoundWithin(amount, v.total - v.amountPaid);
  }

  /**
   The whole of a new payment goes to one invoice. The stored payment may round below the exact
   request, so cover is argued from the stored allocation, which rounds the same way.
   */
  lemma AllocateWholePayment(l: Ledger, after: Ledger, paymentId: nat, invoiceId: nat, amount: real, tenant: string)
    requires LedgerOk(l) && InvoiceFound(l, invoiceId, tenant) && PaymentFound(l, paymentId, tenant)
    requires amount > 0.0 && AcceptsPayment(l.invoices[invoiceId], amount)
    requires SumAt(ByPayment(l.allocations), paymentId) == 0 && l.payments[paymentId].amount == RoundCents(amount)
    requires AllocateTo(l, paymentId, invoiceId, amount, tenant) == Some(after)
    ensures LedgerOk(after)
  {
    AllocateKeepsBalance(l, after, paymentId, invoiceId, amount, tenant);
    AllocateKeepsRows(l, after, paymentId, invoiceId, amount, tenant);
    var a := Allocation(tenant, paymentId, invoiceId, RoundCents(amount));
    AppendEntries(l.allocations, a);
    forall p | 0 <= p < |after.payments| ensures SumAt(ByPayment(after.allocations), p) <= after.payments[p].amount {
      SumAtAppend(ByPayment(l.allocations), Entry(paymentId, a.amount), p);
    }
  }

  // ---- what an accepted payment moves ----

  /** What is left of a payment to allocate. */
  ghost function Unallocated(l: Ledger, p: nat): int
    requires p < |l.payments|
  {
    l.payments[p].amount - SumAt(ByPayment(l.allocations), p)
  }

  /** What is left of an invoice to pay. */
  ghost function Balance(l: Ledger, v: nat): int
    requires v < |l.invoices|
  {
    l.invoices[v].total - l.invoices[v].amountPaid
  }

  /** An accepted allocation moves the same cents out of the payment and off the invoice, and nothing else. */
  lemma AllocateMovesMoney(l: Ledger, paymentId: nat, invoiceId: nat, amount: real, tenant: string)
    requires LedgerOk(l) && AllocateStep(l, paymentId, invoiceId, amount, tenant).1 == Updated
    ensures var after := AllocateStep(l, paymentId, invoiceId, amount, tenant).0;
            paymentId < |l.payments| && invoiceId < |l.invoices|
            && after.payments == l.payments && |after.invoices| == |l.invoices|
            && RoundCents(amount) > 0
            && Unallocated(after, paymentId) == Unallocated(l, paymentId) - RoundCents(amount)
            && Balance(after, invoiceId) == Balance(l, invoiceId) - RoundCents(amount)
            && (forall p :: 0 <= p < |l.payments| && p != paymentId ==> Unallocated(after, p) == Unallocated(l, p))
            && (forall v :: 0 <= v < |l.invoices| && v != invoiceId ==> after.invoices[v] == l.invoices[v])
  {
    var after := AllocateStep(l, paymentId, invoiceId, amount, tenant).0;
    CreditedOk(l.invoices[invoiceId], amount);
    AppendEntries(l.allocations, Allocation(tenant, paymentId, invoiceId, RoundCents(amount)));
    forall p | 0 <= p < |l.payments|
      ensures SumAt(ByPayment(after.allocations), p)
           == SumAt(ByPayment(l.allocations), p) + if p == paymentId then RoundCents(amount) else 0
    {
      SumAtAppend(ByPayment(l.allocations), Entry(paymentId, RoundCents(amount)), p);
    }
  }

  /** A payment recorded against an invoice is allocated to it in full. */
  lemma RecordAllocatesInFull(l: Ledger, dto: RecordPayment, tenant: string)
    requires LedgerOk(l) && dto.invoiceId.Some? && RecordStep(l, dto, tenant).1.Created?
    ensures var after := RecordStep(l, dto, tenant).0;
            var p := |l.payments|;
            dto.invoiceId.value < |l.invoices| && |after.payments| == p + 1 && |after.invoices| == |l.invoices|
            && after.payments[p].amount == RoundCents(dto.amount) && Unallocated(after, p) == 0
            && Balance(after, dto.invoiceId.value) == Balance(l, dto.invoiceId.value) - RoundCents(dto.amount)
  {
    var after := RecordStep(l, dto, tenant).0;
    var v := dto.invoiceId.value;
    CreditedOk(l.invoices[v], dto.amount);
    NewPaymentKeepsOk(l, after.payments[|l.payments|]);
    AppendEntries(l.allocations, Allocation(tenant, |l.payments|, v, RoundCents(dto.amount)));
    SumAtAppend(ByPayment(l.allocations), Entry(|l.payments|, RoundCents(dto.amount)), |l.payments|);
  }

  // ---- rewriting one invoice ----

  lemma RewriteKeepsOk(l: Ledger, id: nat, v: Invoice)
    requires LedgerOk(l) && id < |l.invoices| && InvoiceAccepted(v) && TotalsOk(v)
    requires v.tenantId == l.invoices[id].tenantId && v.year == l.invoices[id].year && v.number == l.invoices[id].number
    requires v.amountPaid == l.invoices[id].amountPaid
    ensures LedgerOk(l.(invoices := l.invoices[id := v]))
  {
    var after := l.(invoices := l.invoices[id := v]);
    UpdateKeepsNumbered(l.invoices, id, v);
    forall i | 0 <= i < |after.allocations| ensures AllocationOk(after, after.allocations[i]) {
      assert AllocationOk(l, l.allocations[i]);
    }
  }

  lemma UpdateKeepsOk(l: Ledger, id: nat, dto: UpdateInvoice, tenant: string)
    requires LedgerOk(l)
    ensures LedgerOk(UpdateStep(l, id, dto, tenant).0)
  {
    var (after, reply) := UpdateStep(l, id, dto, tenant);
    if reply == Updated { RewriteKeepsOk(l, id, after.invoices[id]); }
  }

  lemma IssueKeepsOk(l: Ledger, id: nat, tenant: string, today: int)
    requires LedgerOk(l)
    ensures LedgerOk(IssueStep(l, id, tenant, today).0)
  {
    var (after, reply) := IssueStep(l, id, tenant, today);
    if reply == Updated { RewriteKeepsOk(l, id, after.invoices[id]); }
  }

  lemma VoidKeepsOk(l: Ledger, id: nat, tenant: string)
    requires LedgerOk(l)
    ensures LedgerOk(VoidStep(l, id, tenant).0)
  {
    var (after, reply) := VoidStep(l, id, tenant);
    if reply == Updated { RewriteKeepsOk(l, id, after.invoices[id]); }
  }

  // ---- creating ----

  /** What a request that creates an invoice leaves in the table: an unpaid draft whose totals add up. */
  ghost predicate UnpaidDraft(v: Invoice) {
    InvoiceAccepted(v) && TotalsOk(v) && v.amountPaid == 0 && v.status == DRAFT
  }

  /** What other requests commit meanwhile are invoices they have just drafted. */
  ghost predicate RivalsOk(rivals: seq<seq<Invoice>>) {
    forall k, i :: 0 <= k < |rivals| && 0 <= i < |rivals[k]| ==> UnpaidDraft(rivals[k][i])
  }

  lemma AddDraftsKeepsOk(l: Ledger, rows: seq<Invoice>)
    requires LedgerOk(l) && Numbered(l.invoices + rows)
    requires forall i :: 0 <= i < |rows| ==> UnpaidDraft(rows[i])
    ensures LedgerOk(l.(invoices := l.invoices + rows))
  {
    var after := l.(invoices := l.invoices + rows);
    forall i | 0 <= i < |after.allocations| ensures AllocationOk(after, after.allocations[i]) {
      assert AllocationOk(l, l.allocations[i]);
    }
    forall i | 0 <= i < |after.invoices| ensures after.invoices[i].amountPaid == SumAt(ByInvoice(after.allocations), i) {
      if i >= |l.invoices| {
        assert UnpaidDraft(rows[i - |l.invoices|]);
        forall j | 0 <= j < |l.allocations| ensures ByInvoice(l.allocations)[j].key != i {
          assert AllocationOk(l, l.allocations[j]);
        }
        SumAtUnusedKey(ByInvoice(l.allocations), i);
      }
    }
  }

  lemma {:induction false} JoinKeepsOk(l: Ledger, drafts: seq<Invoice>)
    requires LedgerOk(l) && forall i :: 0 <= i < |drafts| ==> UnpaidDraft(drafts[i])
    ensures LedgerOk(l.(invoices := Joined(l.invoices, drafts)))
    decreases |drafts|
  {
    if drafts != [] {
      var front := Joined(l.invoices, drafts[..|drafts| - 1]);
      var row := Numbering(drafts[|drafts| - 1], front);
      JoinKeepsOk(l, drafts[..|drafts| - 1]);
      AppendNumbered(front, row);
      AddDraftsKeepsOk(l.(invoices := front), [row]);
    }
  }

  lemma QuietAttemptKeepsOk(l: Ledger, draft: Invoice, rivals: seq<seq<Invoice>>)
    requires rivals != [] && LedgerOk(l) && LedgerOk(l.(invoices := Joined(l.invoices, rivals[0]))) && UnpaidDraft(draft)
    requires !HasSeries(rivals[0], draft.tenantId, draft.year)
    ensures LedgerOk(InsertWithRetry(l, draft, rivals).0)
  {
    var others := Joined(l.invoices, rivals[0]);
    QuietAttempt(l, draft, rivals);
    AddDraftsKeepsOk(l.(invoices := others), [Numbering(draft, others)]);
  }

  lemma RefusedDraft(l: Ledger, draft: Invoice, rivals: seq<seq<Invoice>>)
    requires rivals != [] && !InvoiceAccepted(draft)
    ensures InsertWithRetry(l, draft, rivals) == (l.(invoices := Joined(l.invoices, rivals[0])), ConstraintViolation)
  {
  }

  lemma {:induction false} RetryKeepsOk(l: Ledger, draft: Invoice, rivals: seq<seq<Invoice>>)
    requires LedgerOk(l) && RivalsOk(rivals)
    requires InvoiceAccepted(draft) ==> UnpaidDraft(draft)
    ensures LedgerOk(InsertWithRetry(l, draft, rivals).0)
    decreases |rivals|
  {
    if rivals != [] {
      JoinKeepsOk(l, rivals[0]);
      if !InvoiceAccepted(draft) {
        RefusedDraft(l, draft, rivals);
      } else if HasSeries(rivals[0], draft.tenantId, draft.year) {
        RacedAttempt(l, draft, rivals);
        RetryKeepsOk(l.(invoices := Joined(l.invoices, rivals[0])), draft, rivals[1..]);
      } else {
        QuietAttemptKeepsOk(l, draft, rivals);
      }
    }
  }

  lemma CreateKeepsOk(l: Ledger, dto: CreateInvoice, tenant: string, year: nat, rivals: seq<seq<Invoice>>)
    requires LedgerOk(l) && RivalsOk(rivals)
    ensures LedgerOk(CreateStep(l, dto, tenant, year, rivals).0)
  {
    if OrderFound(l.reference, dto.orderId, tenant)
       && (dto.taxRateId.Some? ==> TaxRateFound(l.reference, dto.taxRateId.value, tenant))
    {
      var draft := DraftInvoice(l, dto, tenant, year, "");
      RetryKeepsOk(l, draft, rivals);
    }
  }

  // ---- every call, every run ----

  ghost predicate Fair(e: Event) {
    (e.Create? ==> RivalsOk(e.rivals)) && (e.ChangeReference? ==> RatesOk(e.reference))
  }

  ghost predicate FairRun(es: seq<Event>) {
    forall i :: 0 <= i < |es| ==> Fair(es[i])
  }

  lemma StepKeepsOk(l: Ledger, e: Event)
    requires LedgerOk(l) && Fair(e)
    ensures LedgerOk(Step(l, e).0)
  {
    match e
    case Record(dto, tenant) => RecordKeepsOk(l, dto, tenant);
    case Allocate(p, v, amount, tenant) => AllocateKeepsOk(l, p, v, amount, tenant);
    case Create(dto, tenant, year, rivals) => CreateKeepsOk(l, dto, tenant, year, rivals);
    case Update(id, dto, tenant) => UpdateKeepsOk(l, id, dto, tenant);
    case Issue(id, tenant, today) => IssueKeepsOk(l, id, tenant, today);
    case Void(id, tenant) => VoidKeepsOk(l, id, tenant);
    case ChangeReference(r) => ReferenceKeepsOk(l, r);
  }

  lemma ReferenceKeepsOk(l: Ledger, r: Reference)
    requires LedgerOk(l) && RatesOk(r)
    ensures LedgerOk(l.(reference := r))
  {
    var after := l.(reference := r);
    forall i | 0 <= i < |after.allocations| ensures AllocationOk(after, after.allocations[i]) {
      assert AllocationOk(l, l.allocations[i]);
    }
  }

  lemma {:induction false} RunKeepsOk(l: Ledger, es: seq<Event>)
    requires LedgerOk(l) && FairRun(es)
    ensures LedgerOk(Run(l, es))
    decreases |es|
  {
    if es != [] {
      StepKeepsOk(l, es[0]);
      RunKeepsOk(Step(l, es[0]).0, es[1..]);
    }
  }

  // ---- conservation ----

  ghost function PaidBy(l: Ledger, tenant: string): int {
    SumBelow(|l.invoices|, (i: nat) => if i < |l.invoices| && l.invoices[i].tenantId == tenant then l.invoices[i].amountPaid else 0)
  }

  ghost function ReceivedBy(l: Ledger, tenant: string): int {
    SumBelow(|l.payments|, (p: nat) => if p < |l.payments| && l.payments[p].tenantId == tenant then l.payments[p].amount else 0)
  }

  ghost function AllocatedBy(l: Ledger, tenant: string): int {
    SumAllocationsOf(l.allocations, tenant)
  }

  ghost function SumAllocationsOf(allocations: seq<Allocation>, tenant: string): int {
    if allocations == [] then 0
    else
      var last := allocations[|allocations| - 1];
      SumAllocationsOf(allocations[..|allocations| - 1], tenant) + if last.tenantId == tenant then last.amount else 0
  }

  ghost function InvoiceOf(l: Ledger, tenant: string): nat -> bool {
    (i: nat) => i < |l.invoices| && l.invoices[i].tenantId == tenant
  }

  ghost function PaymentOf(l: Ledger, tenant: string): nat -> bool {
    (p: nat) => p < |l.payments| && l.payments[p].tenantId == tenant
  }

  /** An allocation is its invoice's tenant's and its payment's tenant's at once. */
  lemma {:induction false} SameAllocations(l: Ledger, tenant: string, n: nat)
    requires AllocationsOk(l) && n <= |l.allocations|
    ensures SumWhere(ByInvoice(l.allocations[..n]), InvoiceOf(l, tenant)) == SumAllocationsOf(l.allocations[..n], tenant)
    ensures SumWhere(ByPayment(l.allocations[..n]), PaymentOf(l, tenant)) == SumAllocationsOf(l.allocations[..n], tenant)
  {
    if n > 0 {
      SameAllocations(l, tenant, n - 1);
      assert AllocationOk(l, l.allocations[n - 1]);
      assert l.allocations[..n][..n - 1] == l.allocations[..n - 1];
      assert ByInvoice(l.allocations[..n])[..n - 1] == ByInvoice(l.allocations[..n - 1]);
      assert ByPayment(l.allocations[..n])[..n - 1] == ByPayment(l.allocations[..n - 1]);
    }
  }

  lemma PaidEqualsAllocated(l: Ledger, tenant: string)
    requires AllocationsOk(l) && InvoicesBalance(l)
    ensures PaidBy(l, tenant) == AllocatedBy(l, tenant)
  {
    var es := ByInvoice(l.allocations);
    var mine := InvoiceOf(l, tenant);
    var paid := (i: nat) => if i < |l.invoices| && l.invoices[i].tenantId == tenant then l.invoices[i].amountPaid else 0;
    forall i | 0 <= i < |es| ensures es[i].key < |l.invoices| { assert AllocationOk(l, l.allocations[i]); }
    SumByKeyOrByEntry(es, mine, |l.invoices|);
    forall i: nat | i < |l.invoices| ensures paid(i) == PerKey(es, mine)(i) {}
    SumBelowMonotone(|l.invoices|, paid, PerKey(es, mine));
    SumBelowMonotone(|l.invoices|, PerKey(es, mine), paid);
    SameAllocations(l, tenant, |l.allocations|);
    assert l.allocations[..|l.allocations|] == l.allocations;
  }

  lemma AllocatedWithinReceived(l: Ledger, tenant: string)
    requires AllocationsOk(l) && PaymentsCover(l)
    ensures AllocatedBy(l, tenant) <= ReceivedBy(l, tenant)
  {
    var es := ByPayment(l.allocations);
    var mine := PaymentOf(l, tenant);
    var received := (p: nat) => if p < |l.payments| && l.payments[p].tenantId == tenant then l.payments[p].amount else 0;
    forall i | 0 <= i < |es| ensures es[i].key < |l.payments| { assert AllocationOk(l, l.allocations[i]); }
    SumByKeyOrByEntry(es, mine, |l.payments|);
    forall p: nat | p < |l.payments| ensures PerKey(es, mine)(p) <= received(p) {}
    SumBelowMonotone(|l.payments|, PerKey(es, mine), received);
    SameAllocations(l, tenant, |l.allocations|);
    assert l.allocations[..|l.allocations|] == l.allocations;
  }

  ghost function EmptyLedger(r: Reference): Ledger { Ledger([], [], [], r) }

  /** In every run, what a tenant's invoices record as paid is what was allocated, within what was received. */
  lemma MoneyIsConserved(r: Reference, es: seq<Event>, tenant: string)
    requires RatesOk(r) && FairRun(es)
    ensures var l := Run(EmptyLedger(r), es);
            PaidBy(l, tenant) == AllocatedBy(l, tenant) <= ReceivedBy(l, tenant)
  {
    RunKeepsOk(EmptyLedger(r), es);
    PaidEqualsAllocated(Run(EmptyLedger(r), es), tenant);
    AllocatedWithinReceived(Run(EmptyLedger(r), es), tenant);
  }

  /** In every run, each row balances: invoice against its allocations, payment against its own. */
  lemma EveryRowBalances(r: Reference, es: seq<Event>)
    requires RatesOk(r) && FairRun(es)
    ensures var l := Run(EmptyLedger(r), es);
            (forall i :: 0 <= i < |l.invoices| ==>
              0 <= l.invoices[i].amountPaid == SumAt(ByInvoice(l.allocations), i) <= l.invoices[i].total)
            && (forall p :: 0 <= p < |l.payments| ==> SumAt(ByPayment(l.allocations), p) <= l.payments[p].amount)
  {
    RunKeepsOk(EmptyLedger(r), es);
    var l := Run(EmptyLedger(r), es);
    forall i | 0 <= i < |l.invoices| ensures 0 <= l.invoices[i].amountPaid <= l.invoices[i].total {
      assert InvoiceAccepted(l.invoices[i]);
    }
  }
}
