/** "Fully paid implies PAID" is not kept: for every call, exactly when it is. */
module FullyPaid {
  import opened Basics
  import opened BillingModel
  import opened LedgerInvariant
  import opened InvoiceNumbering
  import opened InvoiceLife
  import Tax

  predicate FullyPaidIsPaid(v: Invoice) {
    v.amountPaid == v.total ==> v.status == PAID
  }

  /**
   Crediting an invoice marks it PAID exactly when the exact amount reaches the total. It leaves a
   fully paid invoice unmarked exactly when a fraction of a cent was rounded up to fill the balance.
   */
  lemma CreditMarksPaidIff(v: Invoice, amount: real)
    requires InvoiceAccepted(v) && TotalsOk(v) && v.status != PAID && amount > 0.0 && AcceptsPayment(v, amount)
    ensures var balance := v.total - v.amountPaid;
            (Credited(v, amount).status == PAID <==> amount == balance as real)
            && (FullyPaidIsPaid(Credited(v, amount)) <==> (RoundCents(amount) == balance ==> amount == balance as real))
  {
    CreditedOk(v, amount);
  }

  /** A payment of half a cent less than the balance: paid in full, never marked. */
  lemma HalfCentShortIsNotMarked(v: Invoice)
    requires InvoiceAccepted(v) && TotalsOk(v) && v.status in {DRAFT, SENT} && v.total - v.amountPaid == 1
    ensures AcceptsPayment(v, 0.5)
    ensures Credited(v, 0.5).amountPaid == v.total && !FullyPaidIsPaid(Credited(v, 0.5))
  {
    CreditedOk(v, 0.5);
    assert RoundCents(0.5) == 1;
  }

  /** An accepted update breaks it exactly when the new total equals what has been paid. */
  lemma UpdateKeepsFullyPaidIff(l: Ledger, id: nat, rateId: nat, dueDate: Option<int>, tenant: string)
    requires LedgerOk(l) && UpdateStep(l, id, UpdateInvoice(Some(rateId), dueDate), tenant).1 == Updated
    ensures id < |l.invoices| && rateId in l.reference.taxRates
    ensures FullyPaidIsPaid(UpdateStep(l, id, UpdateInvoice(Some(rateId), dueDate), tenant).0.invoices[id])
       <==> l.invoices[id].amountPaid
            != l.invoices[id].subtotal + Tax.CalculateTax(l.invoices[id].subtotal, l.reference.taxRates[rateId].rate)
  {
    assert TotalsOk(l.invoices[id]);
  }

  ghost predicate AllMarked(invoices: seq<Invoice>) {
    forall i :: 0 <= i < |invoices| ==> FullyPaidIsPaid(invoices[i])
  }

  lemma OneRewriteMarkedIff(invoices: seq<Invoice>, id: nat, v: Invoice)
    requires AllMarked(invoices) && id < |invoices|
    ensures AllMarked(invoices[id := v]) <==> FullyPaidIsPaid(v)
  {
    assert invoices[id := v][id] == v;
  }

  // ---- the calls that break it ----

  /** A fraction of a cent less than the balance, which the column rounds up to all of it. */
  predicate RoundsUpToBalance(v: Invoice, amount: real) {
    v.status != VOID && 0.0 < amount < (v.total - v.amountPaid) as real && RoundCents(amount) == v.total - v.amountPaid
  }

  predicate RecordBreaks(l: Ledger, dto: RecordPayment, tenant: string) {
    (if dto.paymentMethodId.Some? then PaymentMethodFound(l.reference, dto.paymentMethodId.value, tenant) else dto.methodText != "")
    && dto.invoiceId.Some? && InvoiceFound(l, dto.invoiceId.value, tenant)
    && RoundsUpToBalance(l.invoices[dto.invoiceId.value], dto.amount)
  }

  predicate AllocateBreaks(l: Ledger, paymentId: nat, invoiceId: nat, amount: real, tenant: string) {
    PaymentFound(l, paymentId, tenant) && InvoiceFound(l, invoiceId, tenant)
    && RoundsUpToBalance(l.invoices[invoiceId], amount)
    && amount <= (l.payments[paymentId].amount - SumAllocations(l.allocations, paymentId, tenant)) as real
  }

  /** A tax change on a draft that brings its total down to exactly what has been paid. */
  predicate UpdateBreaks(l: Ledger, id: nat, dto: UpdateInvoice, tenant: string) {
    InvoiceFound(l, id, tenant) && l.invoices[id].status == DRAFT
    && dto.taxRateId.Some? && TaxRateFound(l.reference, dto.taxRateId.value, tenant)
    && l.invoices[id].subtotal + Tax.CalculateTax(l.invoices[id].subtotal, l.reference.taxRates[dto.taxRateId.value].rate)
       == l.invoices[id].amountPaid
  }

  ghost predicate AllPositive(drafts: seq<Invoice>) {
    forall i :: 0 <= i < |drafts| ==> drafts[i].total > 0
  }

  /** Some invoice for nothing gets into the table: one of the rivals', or the draft itself in its turn. */
  ghost predicate NothingToPayGetsIn(draft: Invoice, rivals: seq<seq<Invoice>>)
    decreases |rivals|
  {
    rivals != []
    && (!AllPositive(rivals[0])
        || (InvoiceAccepted(draft)
            && if HasSeries(rivals[0], draft.tenantId, draft.year) then NothingToPayGetsIn(draft, rivals[1..]) else draft.total == 0))
  }

  ghost predicate CreateBreaks(l: Ledger, dto: CreateInvoice, tenant: string, year: nat, rivals: seq<seq<Invoice>>) {
    OrderFound(l.reference, dto.orderId, tenant)
    && (dto.taxRateId.Some? ==> TaxRateFound(l.reference, dto.taxRateId.value, tenant))
    && NothingToPayGetsIn(DraftInvoice(l, dto, tenant, year, ""), rivals)
  }

  /** Issuing, voiding and a change of reference data never break it. */
  ghost predicate Breaks(l: Ledger, e: Event) {
    match e
    case Record(dto, tenant) => RecordBreaks(l, dto, tenant)
    case Allocate(p, v, amount, tenant) => AllocateBreaks(l, p, v, amount, tenant)
    case Create(dto, tenant, year, rivals) => CreateBreaks(l, dto, tenant, year, rivals)
    case Update(id, dto, tenant) => UpdateBreaks(l, id, dto, tenant)
    case Issue(_, _, _) => false
    case Void(_, _) => false
    case ChangeReference(_) => false
  }

  // ---- payments ----

  /** A payment that would be rounded up to the balance is always accepted, and leaves the invoice unmarked. */
  lemma RoundedUpIsAccepted(v: Invoice, amount: real)
    requires InvoiceAccepted(v) && TotalsOk(v) && FullyPaidIsPaid(v) && RoundsUpToBalance(v, amount)
    ensures AcceptsPayment(v, amount) && InvoiceAccepted(Credited(v, amount)) && !FullyPaidIsPaid(Credited(v, amount))
    ensures RoundCents(amount) > 0 && FitsMoney(RoundCents(amount))
  {
    CreditedOk(v, amount);
    CreditMarksPaidIff(v, amount);
  }

  /** Any other accepted payment keeps the invoice marked. */
  lemma OtherPaymentsKeepMark(v: Invoice, amount: real)
    requires InvoiceAccepted(v) && TotalsOk(v) && FullyPaidIsPaid(v)
    requires amount > 0.0 && AcceptsPayment(v, amount) && !RoundsUpToBalance(v, amount)
    ensures FullyPaidIsPaid(Credited(v, amount))
  {
    CreditMarksPaidIff(v, amount);
  }

  lemma RecordKeepsMarksIff(l: Ledger, dto: RecordPayment, tenant: string)
    requires LedgerOk(l) && AllMarked(l.invoices)
    ensures AllMarked(RecordStep(l, dto, tenant).0.invoices) <==> !RecordBreaks(l, dto, tenant)
  {
    if dto.invoiceId.Some? && InvoiceFound(l, dto.invoiceId.value, tenant) {
      var id := dto.invoiceId.value;
      var v := l.invoices[id];
      assert InvoiceAccepted(v) && TotalsOk(v);
      OneRewriteMarkedIff(l.invoices, id, Credited(v, dto.amount));
      if RoundsUpToBalance(v, dto.amount) {
        RoundedUpIsAccepted(v, dto.amount);
      } else if dto.amount > 0.0 && AcceptsPayment(v, dto.amount) {
        OtherPaymentsKeepMark(v, dto.amount);
      }
    }
  }

  lemma AllocateKeepsMarksIff(l: Ledger, paymentId: nat, invoiceId: nat, amount: real, tenant: string)
    requires LedgerOk(l) && AllMarked(l.invoices)
    ensures AllMarked(AllocateStep(l, paymentId, invoiceId, amount, tenant).0.invoices)
       <==> !AllocateBreaks(l, paymentId, invoiceId, amount, tenant)
  {
    if InvoiceFound(l, invoiceId, tenant) {
      var v := l.invoices[invoiceId];
      assert InvoiceAccepted(v) && TotalsOk(v);
      OneRewriteMarkedIff(l.invoices, invoiceId, Credited(v, amount));
      if RoundsUpToBalance(v, amount) {
        RoundedUpIsAccepted(v, amount);
      } else if amount > 0.0 && AcceptsPayment(v, amount) {
        OtherPaymentsKeepMark(v, amount);
      }
    }
  }

  // ---- rewriting an invoice ----

  lemma UpdateKeepsMarksIff(l: Ledger, id: nat, dto: UpdateInvoice, tenant: string)
    requires LedgerOk(l) && AllMarked(l.invoices)
    ensures AllMarked(UpdateStep(l, id, dto, tenant).0.invoices) <==> !UpdateBreaks(l, id, dto, tenant)
  {
    if InvoiceFound(l, id, tenant) {
      assert InvoiceAccepted(l.invoices[id]) && TotalsOk(l.invoices[id]);
      if dto.taxRateId.Some? && TaxRateFound(l.reference, dto.taxRateId.value, tenant) {
        Tax.TaxWithinSubtotal(l.invoices[id].subtotal, l.reference.taxRates[dto.taxRateId.value].rate);
      }
      var after := UpdateStep(l, id, dto, tenant).0;
      OneRewriteMarkedIff(l.invoices, id, after.invoices[id]);
      assert after.invoices == l.invoices[id := after.invoices[id]];
    }
  }

  /** Issuing, voiding and an update without a tax rate keep it on every single row. */
  lemma OtherRewritesKeepEveryMark(l: Ledger, e: Event, i: nat)
    requires e.Issue? || e.Void? || (e.Update? && e.update.taxRateId.None?)
    requires LedgerOk(l) && i < |l.invoices| && FullyPaidIsPaid(l.invoices[i])
    ensures i < |Step(l, e).0.invoices| && FullyPaidIsPaid(Step(l, e).0.invoices[i])
  {
  }

  lemma OtherRewritesKeepMarks(l: Ledger, e: Event)
    requires e.Issue? || e.Void?
    requires LedgerOk(l) && AllMarked(l.invoices)
    ensures AllMarked(Step(l, e).0.invoices)
  {
    var after := Step(l, e).0.invoices;
    assert |after| == |l.invoices|;
    forall i | 0 <= i < |after| ensures FullyPaidIsPaid(after[i]) {
      OtherRewritesKeepEveryMark(l, e, i);
    }
  }

  // ---- creating one ----

  /** An invoice that has just been created is marked truthfully exactly when there is something to pay. */
  lemma CreatedIsMarkedIff(l: Ledger, dto: CreateInvoice, tenant: string, year: nat, rivals: seq<seq<Invoice>>)
    requires LedgerOk(l) && CreateStep(l, dto, tenant, year, rivals).1.Created?
    ensures var (after, reply) := CreateStep(l, dto, tenant, year, rivals);
            reply.id < |after.invoices| && OrderFound(l.reference, dto.orderId, tenant)
            && after.invoices[reply.id].orderId == dto.orderId
            && (FullyPaidIsPaid(after.invoices[reply.id])
                <==> after.invoices[reply.id].subtotal + after.invoices[reply.id].tax > 0)
  {
    var draft := DraftInvoice(l, dto, tenant, year, "");
    CreatedRow(l, draft, rivals);
  }

  lemma {:induction false} CreatedRow(l: Ledger, draft: Invoice, rivals: seq<seq<Invoice>>)
    requires InsertWithRetry(l, draft, rivals).1.Created?
    ensures var (after, reply) := InsertWithRetry(l, draft, rivals);
            InvoiceAccepted(draft) && reply.id < |after.invoices|
            && after.invoices[reply.id] == draft.(number := after.invoices[reply.id].number)
    decreases |rivals|
  {
    var raced := l.(invoices := Joined(l.invoices, rivals[0]));
    var row := Numbering(draft, l.invoices);
    if NumberTaken(raced.invoices, row.tenantId, row.number) { CreatedRow(raced, draft, rivals[1..]); }
  }

  lemma JoinedMarkedIff(invoices: seq<Invoice>, drafts: seq<Invoice>)
    requires AllMarked(invoices) && forall i :: 0 <= i < |drafts| ==> UnpaidDraft(drafts[i])
    ensures AllMarked(Joined(invoices, drafts)) <==> AllPositive(drafts)
  {
    JoinedGrows(invoices, drafts);
    var all := Joined(invoices, drafts);
    forall i | 0 <= i < |drafts| ensures FullyPaidIsPaid(all[|invoices| + i]) <==> drafts[i].total > 0 {
      assert UnpaidDraft(drafts[i]);
      JoinedRow(invoices, drafts, i);
    }
    forall i | 0 <= i < |invoices| ensures FullyPaidIsPaid(all[i]) {
      assert all[i] == invoices[i];
    }
    if AllPositive(drafts) {
      forall i | 0 <= i < |all| ensures FullyPaidIsPaid(all[i]) {
        if i >= |invoices| { assert drafts[i - |invoices|].total > 0; }
      }
    }
  }

  /** What is in the table stays in it: an unmarked rival spoils whatever comes after. */
  lemma MarksOfLonger(before: seq<Invoice>, after: seq<Invoice>)
    requires before <= after && AllMarked(after)
    ensures AllMarked(before)
  {
    forall i | 0 <= i < |before| ensures FullyPaidIsPaid(before[i]) {
      assert before[i] == after[i];
    }
  }

  lemma {:induction false} InsertKeepsMarksIff(l: Ledger, draft: Invoice, rivals: seq<seq<Invoice>>)
    requires AllMarked(l.invoices) && Numbered(l.invoices) && RivalsOk(rivals)
    requires InvoiceAccepted(draft) ==> UnpaidDraft(draft)
    ensures AllMarked(InsertWithRetry(l, draft, rivals).0.invoices) <==> !NothingToPayGetsIn(draft, rivals)
    decreases |rivals|
  {
    if rivals != [] {
      var others := Joined(l.invoices, rivals[0]);
      JoinedMarkedIff(l.invoices, rivals[0]);
      JoinedNumbered(l.invoices, rivals[0]);
      if InvoiceAccepted(draft) {
        if HasSeries(rivals[0], draft.tenantId, draft.year) {
          RacedAttempt(l, draft, rivals);
          RacedKeepsMarksIff(l, draft, rivals);
        } else {
          QuietAttempt(l, draft, rivals);
          OneMoreMarkedIff(others, Numbering(draft, others));
        }
      }
    }
  }

  lemma {:induction false} RacedKeepsMarksIff(l: Ledger, draft: Invoice, rivals: seq<seq<Invoice>>)
    requires rivals != [] && Numbered(Joined(l.invoices, rivals[0])) && RivalsOk(rivals) && UnpaidDraft(draft)
    ensures var raced := l.(invoices := Joined(l.invoices, rivals[0]));
            AllMarked(InsertWithRetry(raced, draft, rivals[1..]).0.invoices)
            <==> AllMarked(raced.invoices) && !NothingToPayGetsIn(draft, rivals[1..])
    decreases |rivals|, 0
  {
    var raced := l.(invoices := Joined(l.invoices, rivals[0]));
    RetryDevelops(raced, draft, rivals[1..]);
    if AllMarked(raced.invoices) {
      InsertKeepsMarksIff(raced, draft, rivals[1..]);
    } else if AllMarked(InsertWithRetry(raced, draft, rivals[1..]).0.invoices) {
      MarksOfLonger(raced.invoices, InsertWithRetry(raced, draft, rivals[1..]).0.invoices);
    }
  }

  lemma OneMoreMarkedIff(others: seq<Invoice>, row: Invoice)
    requires UnpaidDraft(row)
    ensures AllMarked(others + [row]) <==> AllMarked(others) && row.total > 0
  {
    var all := others + [row];
    if AllMarked(all) {
      assert FullyPaidIsPaid(all[|others|]);
      MarksOfLonger(others, all);
    }
  }

  lemma CreateKeepsMarksIff(l: Ledger, dto: CreateInvoice, tenant: string, year: nat, rivals: seq<seq<Invoice>>)
    requires LedgerOk(l) && AllMarked(l.invoices) && RivalsOk(rivals)
    ensures AllMarked(CreateStep(l, dto, tenant, year, rivals).0.invoices) <==> !CreateBreaks(l, dto, tenant, year, rivals)
  {
    if OrderFound(l.reference, dto.orderId, tenant)
       && (dto.taxRateId.Some? ==> TaxRateFound(l.reference, dto.taxRateId.value, tenant))
    {
      InsertKeepsMarksIff(l, DraftInvoice(l, dto, tenant, year, ""), rivals);
    }
  }

  // ---- every call, every run ----

  /**
   The exact condition, call by call: a call keeps "fully paid implies PAID" if and only if it is
   none of a payment rounded up to the balance, a tax change down to what was paid, and the
   creation of an invoice with nothing to pay.
   */
  lemma StepKeepsMarksIff(l: Ledger, e: Event)
    requires LedgerOk(l) && Fair(e) && AllMarked(l.invoices)
    ensures AllMarked(Step(l, e).0.invoices) <==> !Breaks(l, e)
  {
    match e
    case Record(dto, tenant) => RecordKeepsMarksIff(l, dto, tenant);
    case Allocate(p, v, amount, tenant) => AllocateKeepsMarksIff(l, p, v, amount, tenant);
    case Create(dto, tenant, year, rivals) => CreateKeepsMarksIff(l, dto, tenant, year, rivals);
    case Update(id, dto, tenant) => UpdateKeepsMarksIff(l, id, dto, tenant);
    case Issue(_, _, _) => OtherRewritesKeepMarks(l, e);
    case Void(_, _) => OtherRewritesKeepMarks(l, e);
    case ChangeReference(_) =>
  }

  ghost predicate MarkedThroughout(l: Ledger, es: seq<Event>)
    decreases |es|
  {
    AllMarked(l.invoices) && (es == [] || MarkedThroughout(Step(l, es[0]).0, es[1..]))
  }

  ghost predicate NothingBreaks(l: Ledger, es: seq<Event>)
    decreases |es|
  {
    es == [] || (!Breaks(l, es[0]) && NothingBreaks(Step(l, es[0]).0, es[1..]))
  }

  lemma {:induction false} MarkedFromHereIff(l: Ledger, es: seq<Event>)
    requires LedgerOk(l) && FairRun(es) && AllMarked(l.invoices)
    ensures MarkedThroughout(l, es) <==> NothingBreaks(l, es)
    decreases |es|
  {
    if es != [] {
      var next := Step(l, es[0]).0;
      StepKeepsMarksIff(l, es[0]);
      StepKeepsOk(l, es[0]);
      if AllMarked(next.invoices) { MarkedFromHereIff(next, es[1..]); }
    }
  }

  /** In a run, fully paid implies PAID at every moment if and only if no call of the run was one of those three. */
  lemma MarkedThroughoutIff(r: Reference, es: seq<Event>)
    requires RatesOk(r) && FairRun(es)
    ensures MarkedThroughout(EmptyLedger(r), es) <==> NothingBreaks(EmptyLedger(r), es)
  {
    MarkedFromHereIff(EmptyLedger(r), es);
  }

  // ---- the inputs that break it ----

  /** No rival in any attempt. */
  const QUIET: seq<seq<Invoice>> := seq(INVOICE_NUMBER_GENERATION_MAX_ATTEMPTS, _ => [])

  /** One order of one line at the given price, a tax rate of ten percent and one of zero. */
  function OneOrder(price: int): Reference {
    Reference(map[0 := TaxRate("t", 1000, false), 1 := TaxRate("t", 0, false)], map[],
              map[0 := Order("t", 0, [OrderLine(0, 1, price, price)], false)], [])
  }

  lemma OneDraft(price: int, taxRateId: Option<nat>) returns (draft: Invoice)
    requires 0 <= price <= 1000 && (taxRateId.Some? ==> taxRateId.value <= 1)
    ensures draft == DraftInvoice(EmptyLedger(OneOrder(price)), CreateInvoice(0, taxRateId, None), "t", 2026, "")
    ensures draft.subtotal == price && UnpaidDraft(draft) && draft.tenantId == "t"
    ensures draft.tax == (if taxRateId == Some(0) then Tax.CalculateTax(price, 1000) else 0) && draft.total == price + draft.tax
  {
    draft := DraftInvoice(EmptyLedger(OneOrder(price)), CreateInvoice(0, taxRateId, None), "t", 2026, "");
    assert |draft.items| == 1 && draft.items[..|draft.items| - 1] == [] && draft.items[0].amount == price;
    assert SumAmounts(draft.items) == SumAmounts([]) + price;
  }

  lemma OneInvoice(price: int, taxRateId: Option<nat>) returns (row: Invoice)
    requires 0 <= price <= 1000 && (taxRateId.Some? ==> taxRateId.value <= 1)
    ensures var l := EmptyLedger(OneOrder(price));
            CreateStep(l, CreateInvoice(0, taxRateId, None), "t", 2026, QUIET) == (l.(invoices := [row]), Created(0))
    ensures UnpaidDraft(row) && row.tenantId == "t" && row.subtotal == price && row.total == price + row.tax
    ensures row.tax == if taxRateId == Some(0) then Tax.CalculateTax(price, 1000) else 0
    ensures RivalsOk(QUIET)
  {
    var l := EmptyLedger(OneOrder(price));
    var draft := OneDraft(price, taxRateId);
    SequentialCreateNeverRetries(l, draft, INVOICE_NUMBER_GENERATION_MAX_ATTEMPTS);
    row := Numbering(draft, []);
    assert l.invoices + [row] == [row];
  }

  /** An order for nothing: its invoice is fully paid when it is created, never marked, and can be issued so. */
  lemma NothingToPayIsNeverMarked() returns (draft: Invoice, sent: Invoice)
    ensures var create := Create(CreateInvoice(0, None, None), "t", 2026, QUIET);
            var created := Step(EmptyLedger(OneOrder(0)), create).0;
            Fair(create) && created.invoices == [draft] && draft.total == draft.amountPaid == 0 && draft.status == DRAFT
            && IssueStep(created, 0, "t", 0).0.invoices == [sent] && IssueStep(created, 0, "t", 0).1 == Updated
            && sent.total == sent.amountPaid && sent.status == SENT && !FullyPaidIsPaid(draft) && !FullyPaidIsPaid(sent)
  {
    draft := OneInvoice(0, None);
    sent := draft.(status := SENT, issuedDate := Some(0));
  }

  /** A payment of the price without its tax. */
  lemma PriceIsPaid(created: Ledger, row: Invoice) returns (paid: Ledger)
    requires created == EmptyLedger(OneOrder(100)).(invoices := [row])
    requires UnpaidDraft(row) && row.tenantId == "t" && row.subtotal == 100 && row.total == 110
    ensures paid == Step(created, Record(RecordPayment(Some(0), 100.0, None, "cash"), "t")).0
    ensures paid.invoices == [row.(amountPaid := 100)] && paid.reference == created.reference
  {
    paid := Step(created, Record(RecordPayment(Some(0), 100.0, None, "cash"), "t")).0;
    assert RoundCents(100.0) == 100;
    assert [row][0 := row.(amountPaid := 100)] == [row.(amountPaid := 100)];
  }

  lemma TaxIsTakenOff(paid: Ledger, row: Invoice) returns (after: Invoice)
    requires paid.invoices == [row.(amountPaid := 100)] && paid.reference == OneOrder(100)
    requires UnpaidDraft(row) && row.tenantId == "t" && row.subtotal == 100
    ensures UpdateStep(paid, 0, UpdateInvoice(Some(1), None), "t") == (paid.(invoices := [after]), Updated)
    ensures after.total == after.amountPaid == 100 && after.status == DRAFT
  {
    after := row.(amountPaid := 100, tax := 0, total := 100, taxRateId := Some(1));
    assert Tax.CalculateTax(100, 0) == 0 && InvoiceAccepted(after);
    assert paid.invoices[0 := after] == [after];
  }

  /** An order for one cent, paid with half a cent: paid in full, never marked. */
  lemma HalfCentIsNeverMarked() returns (paid: Ledger, row: Invoice)
    ensures paid == Run(EmptyLedger(OneOrder(1)),
                        [Create(CreateInvoice(0, None, None), "t", 2026, QUIET),
                         Record(RecordPayment(Some(0), 0.5, None, "cash"), "t")])
    ensures paid.invoices == [row] && |paid.payments| == 1
    ensures row.amountPaid == row.total == 1 && row.status == DRAFT && !FullyPaidIsPaid(row)
  {
    var l := EmptyLedger(OneOrder(1));
    var create := Create(CreateInvoice(0, None, None), "t", 2026, QUIET);
    var record := Record(RecordPayment(Some(0), 0.5, None, "cash"), "t");
    var draft := OneInvoice(1, None);
    var created := Step(l, create).0;
    HalfCentShortIsNotMarked(draft);
    paid := HalfCentIsPaid(created, draft);
    row := Credited(draft, 0.5);
    assert [create, record][1..] == [record] && [record][1..] == [];
    assert Run(created, [record]) == Run(paid, []);
  }

  lemma HalfCentIsPaid(created: Ledger, draft: Invoice) returns (paid: Ledger)
    requires created == EmptyLedger(OneOrder(1)).(invoices := [draft])
    requires UnpaidDraft(draft) && draft.tenantId == "t" && draft.total == 1
    ensures paid == Step(created, Record(RecordPayment(Some(0), 0.5, None, "cash"), "t")).0
    ensures paid.invoices == [Credited(draft, 0.5)] && |paid.payments| == 1
  {
    paid := Step(created, Record(RecordPayment(Some(0), 0.5, None, "cash"), "t")).0;
    assert RoundCents(0.5) == 1;
    assert [draft][0 := Credited(draft, 0.5)] == [Credited(draft, 0.5)];
  }

  /** Ten percent on one euro, one euro paid, then the tax is taken off: fully paid, still a draft. */
  lemma UpdateLandsOnWhatWasPaid() returns (paid: Ledger, after: Invoice)
    ensures paid == Run(EmptyLedger(OneOrder(100)),
                        [Create(CreateInvoice(0, Some(0), None), "t", 2026, QUIET),
                         Record(RecordPayment(Some(0), 100.0, None, "cash"), "t")])
    ensures AllMarked(paid.invoices)
    ensures UpdateStep(paid, 0, UpdateInvoice(Some(1), None), "t") == (paid.(invoices := [after]), Updated)
    ensures after.total == after.amountPaid == 100 && after.status == DRAFT && !FullyPaidIsPaid(after)
  {
    var l := EmptyLedger(OneOrder(100));
    var create := Create(CreateInvoice(0, Some(0), None), "t", 2026, QUIET);
    var record := Record(RecordPayment(Some(0), 100.0, None, "cash"), "t");
    var row := OneInvoice(100, Some(0));
    var created := Step(l, create).0;
    paid := PriceIsPaid(created, row);
    assert [create, record][1..] == [record] && [record][1..] == [];
    assert Run(created, [record]) == Run(paid, []);
    after := TaxIsTakenOff(paid, row);
  }
}
