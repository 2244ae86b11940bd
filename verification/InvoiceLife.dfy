/** What can and cannot happen to one invoice over whole runs. */
module InvoiceLife {
  import opened Basics
  import opened BillingModel
  import opened LedgerInvariant
  import opened InvoiceNumbering
  import Tax

  /** Fields that no call ever changes. */
  ghost predicate SameOrigin(v: Invoice, w: Invoice) {
    w.tenantId == v.tenantId && w.customerId == v.customerId && w.orderId == v.orderId
    && w.number == v.number && w.year == v.year && w.items == v.items
    && w.subtotal == v.subtotal && w.discount == v.discount
  }

  /** How one row may develop: bills freeze when they leave DRAFT, VOID and PAID rows freeze entirely. */
  ghost predicate Develops(v: Invoice, w: Invoice) {
    SameOrigin(v, w)
    && v.amountPaid <= w.amountPaid
    && (v.status != DRAFT ==>
          w.status != DRAFT && w.tax == v.tax && w.total == v.total && w.taxRateId == v.taxRateId
          && w.issuedDate == v.issuedDate && w.dueDate == v.dueDate)
    && (v.status == VOID ==> w == v)
    && (v.status == PAID ==> w == v)
    && (w.status == OVERDUE ==> v.status == OVERDUE)
  }

  ghost predicate AllDevelop(before: seq<Invoice>, after: seq<Invoice>) {
    |before| <= |after| && forall i :: 0 <= i < |before| ==> Develops(before[i], after[i])
  }

  lemma DevelopsTransitively(u: Invoice, v: Invoice, w: Invoice)
    requires Develops(u, v) && Develops(v, w)
    ensures Develops(u, w)
  {
  }

  lemma OneRewriteDevelops(invoices: seq<Invoice>, id: nat, v: Invoice)
    requires id < |invoices| && Develops(invoices[id], v)
    ensures AllDevelop(invoices, invoices[id := v])
  {
  }

  lemma CreditDevelops(v: Invoice, amount: real)
    requires InvoiceAccepted(v) && TotalsOk(v) && amount > 0.0 && AcceptsPayment(v, amount)
    ensures Develops(v, Credited(v, amount))
  {
    CreditedOk(v, amount);
    RoundWithin(amount, v.total - v.amountPaid);
  }

  lemma {:induction false} RetryDevelops(l: Ledger, draft: Invoice, rivals: seq<seq<Invoice>>)
    ensures l.invoices <= InsertWithRetry(l, draft, rivals).0.invoices
    decreases |rivals|
  {
    if rivals != [] {
      JoinedGrows(l.invoices, rivals[0]);
      RetryDevelops(l.(invoices := Joined(l.invoices, rivals[0])), draft, rivals[1..]);
    }
  }

  /** A payment rewrites one invoice, to what crediting it gives, or none. */
  lemma PaymentShape(l: Ledger, e: Event)
    requires e.Record? || e.Allocate?
    ensures var id := if e.Allocate? then Some(e.invoiceId) else e.payment.invoiceId;
            var amount := if e.Allocate? then e.amount else e.payment.amount;
            var after := Step(l, e).0.invoices;
            after == l.invoices ||
            (id.Some? && id.value < |l.invoices| && amount > 0.0 && AcceptsPayment(l.invoices[id.value], amount)
             && after == l.invoices[id.value := Credited(l.invoices[id.value], amount)])
  {
  }

  lemma PaymentDevelops(l: Ledger, e: Event)
    requires InvoicesOk(l.invoices) && (e.Record? || e.Allocate?)
    ensures AllDevelop(l.invoices, Step(l, e).0.invoices)
  {
    PaymentShape(l, e);
    var id := if e.Allocate? then Some(e.invoiceId) else e.payment.invoiceId;
    var amount := if e.Allocate? then e.amount else e.payment.amount;
    if Step(l, e).0.invoices != l.invoices {
      CreditDevelops(l.invoices[id.value], amount);
      OneRewriteDevelops(l.invoices, id.value, Credited(l.invoices[id.value], amount));
    }
  }

  lemma RewriteDevelops(l: Ledger, e: Event)
    requires e.Update? || e.Issue? || e.Void?
    ensures AllDevelop(l.invoices, Step(l, e).0.invoices)
  {
    var after := Step(l, e).0;
    if after != l {
      assert Develops(l.invoices[e.id], after.invoices[e.id]);
      assert after.invoices == l.invoices[e.id := after.invoices[e.id]];
      OneRewriteDevelops(l.invoices, e.id, after.invoices[e.id]);
    }
  }

  lemma CreateAppends(l: Ledger, e: Event)
    requires e.Create?
    ensures l.invoices <= Step(l, e).0.invoices
  {
    if OrderFound(l.reference, e.invoice.orderId, e.tenant)
       && (e.invoice.taxRateId.Some? ==> TaxRateFound(l.reference, e.invoice.taxRateId.value, e.tenant))
    {
      RetryDevelops(l, DraftInvoice(l, e.invoice, e.tenant, e.year, ""), e.rivals);
    }
  }

  lemma CreateDevelops(l: Ledger, e: Event)
    requires e.Create?
    ensures AllDevelop(l.invoices, Step(l, e).0.invoices)
  {
    CreateAppends(l, e);
  }

  lemma StepDevelops(l: Ledger, e: Event)
    requires LedgerOk(l)
    ensures AllDevelop(l.invoices, Step(l, e).0.invoices)
  {
    match e
    case Record(_, _) => PaymentDevelops(l, e);
    case Allocate(_, _, _, _) => PaymentDevelops(l, e);
    case Create(_, _, _, _) => CreateDevelops(l, e);
    case ChangeReference(_) =>
    case _ => RewriteDevelops(l, e);
  }

  /** Over any run, every invoice develops lawfully: bills freeze on issue, VOID and PAID are final. */
  lemma {:induction false} RunDevelops(l: Ledger, es: seq<Event>)
    requires LedgerOk(l) && FairRun(es)
    ensures AllDevelop(l.invoices, Run(l, es).invoices)
    decreases |es|
  {
    if es != [] {
      var next := Step(l, es[0]).0;
      StepDevelops(l, es[0]);
      StepKeepsOk(l, es[0]);
      RunDevelops(next, es[1..]);
      forall i | 0 <= i < |l.invoices| ensures Develops(l.invoices[i], Run(l, es).invoices[i]) {
        DevelopsTransitively(l.invoices[i], next.invoices[i], Run(l, es).invoices[i]);
      }
    }
  }

  /** At every moment of every run totals add up and PAID means paid in full. */
  lemma TotalsInEveryRun(r: Reference, es: seq<Event>, i: nat)
    requires RatesOk(r) && FairRun(es) && i < |Run(EmptyLedger(r), es).invoices|
    ensures var v := Run(EmptyLedger(r), es).invoices[i];
            v.subtotal == SumAmounts(v.items) && v.total == v.subtotal + v.tax - v.discount
            && 0 <= v.amountPaid <= v.total && (v.status == PAID ==> v.amountPaid == v.total)
  {
    RunKeepsOk(EmptyLedger(r), es);
    assert InvoiceAccepted(Run(EmptyLedger(r), es).invoices[i]) && TotalsOk(Run(EmptyLedger(r), es).invoices[i]);
  }

  /** The only ways a status can move in one call: issue, void, or a payment that completes it. */
  ghost predicate StatusMove(e: Event, i: nat, v: Invoice, w: Invoice) {
    (e.Issue? && e.id == i && v.status == DRAFT && w.status == SENT && w.issuedDate == Some(e.today))
    || (e.Void? && e.id == i && v.status in INVOICE_VOIDABLE_STATUSES && w.status == VOID && w == v.(status := VOID))
    || (e.Record? && e.payment.invoiceId == Some(i) && v.status in INVOICE_VOIDABLE_STATUSES
        && w.status == PAID && v.amountPaid < w.amountPaid == w.total)
    || (e.Allocate? && e.invoiceId == i && v.status in INVOICE_VOIDABLE_STATUSES
        && w.status == PAID && v.amountPaid < w.amountPaid == w.total)
  }

  lemma PaymentCompletes(v: Invoice, amount: real)
    requires InvoiceAccepted(v) && TotalsOk(v) && amount > 0.0 && AcceptsPayment(v, amount)
    requires Credited(v, amount).status != v.status && InvoiceAccepted(Credited(v, amount))
    ensures v.status in INVOICE_VOIDABLE_STATUSES && Credited(v, amount).status == PAID
    ensures v.amountPaid < Credited(v, amount).amountPaid == v.total
  {
    CreditedOk(v, amount);
    assert amount == (v.total - v.amountPaid) as real;
    RoundWithin(amount, v.total - v.amountPaid);
  }

  lemma PaymentStatusMove(l: Ledger, e: Event, i: nat)
    requires LedgerOk(l) && i < |l.invoices| && (e.Record? || e.Allocate?)
    ensures i < |Step(l, e).0.invoices|
    ensures var v, w := l.invoices[i], Step(l, e).0.invoices[i];
            w.status == v.status || StatusMove(e, i, v, w)
  {
    PaymentShape(l, e);
    StepKeepsRowAccepted(l, e, i);
    var amount := if e.Allocate? then e.amount else e.payment.amount;
    if Step(l, e).0.invoices[i].status != l.invoices[i].status { PaymentCompletes(l.invoices[i], amount); }
  }

  /** The status machine: in one call a status stays or makes one of the listed moves, by the call meant for it. */
  lemma StatusMachine(l: Ledger, e: Event, i: nat)
    requires LedgerOk(l) && i < |l.invoices|
    ensures i < |Step(l, e).0.invoices|
    ensures var v, w := l.invoices[i], Step(l, e).0.invoices[i];
            w.status == v.status || StatusMove(e, i, v, w)
  {
    if e.Record? || e.Allocate? {
      PaymentStatusMove(l, e, i);
    } else if e.Create? {
      CreateAppends(l, e);
    }
  }

  lemma StepKeepsRowAccepted(l: Ledger, e: Event, i: nat)
    requires LedgerOk(l) && i < |l.invoices| && (e.Record? || e.Allocate?)
    ensures i < |Step(l, e).0.invoices| && InvoiceAccepted(Step(l, e).0.invoices[i])
  {
    StepKeepsOk(l, e);
    assert InvoiceAccepted(Step(l, e).0.invoices[i]);
  }

  /** Under a balanced ledger issuing and voiding are refused only for the status or for an unknown invoice. */
  lemma IssueAndVoidSucceedIff(l: Ledger, id: nat, tenant: string, today: int)
    requires LedgerOk(l)
    ensures IssueStep(l, id, tenant, today).1 == Updated <==> InvoiceFound(l, id, tenant) && l.invoices[id].status == DRAFT
    ensures VoidStep(l, id, tenant).1 == Updated
       <==> InvoiceFound(l, id, tenant) && l.invoices[id].status != PAID && l.invoices[id].status != VOID
  {
    if id < |l.invoices| { assert InvoiceAccepted(l.invoices[id]); }
  }

  // ---- what an invoice bills ----

  function SumLineTotals(lines: seq<OrderLine>): int {
    if lines == [] then 0 else SumLineTotals(lines[..|lines| - 1]) + lines[|lines| - 1].lineTotal
  }

  lemma {:induction false} ItemsSumToLines(items: seq<Item>, lines: seq<OrderLine>)
    requires |items| == |lines| && forall i :: 0 <= i < |items| ==> items[i].amount == lines[i].lineTotal
    ensures SumAmounts(items) == SumLineTotals(lines)
    decreases |items|
  {
    if items != [] { ItemsSumToLines(items[..|items| - 1], lines[..|lines| - 1]); }
  }

  /** A new invoice bills its order: one item a line, their total, and the half-up tax on it at the tenant's rate. */
  lemma DraftBillsTheOrder(l: Ledger, dto: CreateInvoice, tenant: string, year: nat)
    requires OrderFound(l.reference, dto.orderId, tenant)
    requires dto.taxRateId.Some? ==> TaxRateFound(l.reference, dto.taxRateId.value, tenant)
    requires RatesOk(l.reference)
    ensures var v := DraftInvoice(l, dto, tenant, year, "");
            var order := l.reference.orders[dto.orderId];
            v.tenantId == tenant && v.customerId == order.customerId && v.orderId == dto.orderId && v.dueDate == dto.dueDate
            && v.taxRateId == dto.taxRateId && v.year == year && v.issuedDate.None?
            && |v.items| == |order.lines|
            && v.subtotal == SumLineTotals(order.lines) && v.total == v.subtotal + v.tax && v.discount == 0
            && v.status == DRAFT && v.amountPaid == 0
            && (dto.taxRateId.None? ==> v.tax == 0)
            && (dto.taxRateId.Some? && v.subtotal >= 0 ==>
                  var rate := l.reference.taxRates[dto.taxRateId.value].rate;
                  -5000 < Tax.FULL_RATE * v.tax - v.subtotal * rate <= 5000 && 0 <= v.tax <= v.subtotal)
  {
    var v := DraftInvoice(l, dto, tenant, year, "");
    ItemsSumToLines(v.items, l.reference.orders[dto.orderId].lines);
    if dto.taxRateId.Some? && v.subtotal >= 0 {
      var rate := l.reference.taxRates[dto.taxRateId.value].rate;
      Tax.TaxIsHalfUp(v.subtotal, rate, v.tax);
      Tax.TaxWithinSubtotal(v.subtotal, rate);
    }
  }

  /** An update that would bring the total below what has been paid is refused by the CHECK, and only such a one. */
  lemma UpdateRefusedIff(l: Ledger, id: nat, rateId: nat, dueDate: Option<int>, tenant: string)
    requires LedgerOk(l) && InvoiceFound(l, id, tenant) && l.invoices[id].status == DRAFT
    requires TaxRateFound(l.reference, rateId, tenant)
    ensures var v := l.invoices[id];
            var total := v.subtotal + Tax.CalculateTax(v.subtotal, l.reference.taxRates[rateId].rate);
            var (after, reply) := UpdateStep(l, id, UpdateInvoice(Some(rateId), dueDate), tenant);
            (reply == ConstraintViolation <==> total < v.amountPaid || !FitsMoney(total))
            && (reply == ConstraintViolation ==> after == l)
            && (reply == Updated ==> after.invoices[id].total == total && after.invoices[id].amountPaid == v.amountPaid)
  {
    assert InvoiceAccepted(l.invoices[id]) && TotalsOk(l.invoices[id]);
    Tax.TaxWithinSubtotal(l.invoices[id].subtotal, l.reference.taxRates[rateId].rate);
  }

  // ---- the batched variant lookup ----

  /** One query per line, as the batch replaced it. */
  ghost function FindVariantById(variants: seq<Variant>, id: nat, tenant: string): (r: Option<Variant>)
    ensures r.Some? ==> r.value in variants && r.value.id == id && r.value.tenantId == tenant
    ensures r.None? ==> forall v :: v in variants ==> !(v.id == id && v.tenantId == tenant)
  {
    if exists v :: v in variants && v.id == id && v.tenantId == tenant
    then var v :| v in variants && v.id == id && v.tenantId == tenant; Some(v)
    else None
  }

  ghost predicate UniqueVariantIds(variants: seq<Variant>) {
    forall v, w :: v in variants && w in variants && v.id == w.id ==> v == w
  }

  lemma {:induction false} BatchSelects(variants: seq<Variant>, ids: seq<nat>, tenant: string)
    ensures forall v :: v in FindVariantsByIds(variants, ids, tenant)
                  <==> v in variants && v.id in ids && v.tenantId == tenant
    decreases |variants|
  {
    if variants != [] {
      BatchSelects(variants[..|variants| - 1], ids, tenant);
      assert variants == variants[..|variants| - 1] + [variants[|variants| - 1]];
    }
  }

  lemma {:induction false} MapHoldsRows(rows: seq<Variant>)
    ensures forall id :: id in VariantById(rows) <==> exists v :: v in rows && v.id == id
    ensures forall id :: id in VariantById(rows) ==> VariantById(rows)[id] in rows && VariantById(rows)[id].id == id
    decreases |rows|
  {
    if rows != [] {
      var front, last := rows[..|rows| - 1], rows[|rows| - 1];
      MapHoldsRows(front);
      assert rows == front + [last];
      forall id ensures id in VariantById(rows) <==> exists v :: v in rows && v.id == id {
        if id in VariantById(front) {
          var v :| v in front && v.id == id;
          assert v in rows;
        }
        if id == last.id { assert last in rows; }
      }
    }
  }

  /** The one batched query describes each line exactly as one query per line would. */
  lemma BatchEqualsPerLine(order: Order, variants: seq<Variant>, tenant: string, i: nat)
    requires UniqueVariantIds(variants) && i < |order.lines|
    ensures |PrepareItems(order, variants, tenant)| == |order.lines|
    ensures var line := order.lines[i];
            var found := FindVariantById(variants, line.variantId, tenant);
            PrepareItems(order, variants, tenant)[i]
              == Item(if found.Some? then "SKU: " + found.value.sku else "Product variant " + Digits(line.variantId),
                      line.quantity, line.unitPrice, line.lineTotal, i)
  {
    var wanted: seq<nat> := seq(|order.lines|, i requires 0 <= i < |order.lines| => order.lines[i].variantId);
    var ids := Dedup<nat>(wanted);
    assert wanted[i] in ids;
    var rows := FindVariantsByIds(variants, ids, tenant);
    BatchSelects(variants, ids, tenant);
    MapHoldsRows(rows);
    var found := FindVariantById(variants, order.lines[i].variantId, tenant);
    if found.Some? {
      assert found.value in rows;
    }
  }
}
