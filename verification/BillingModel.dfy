/**
 The billing tables and one atomic transition per service call. Stored money is whole
 cents; an amount in a request is an exact decimal number of cents and is rounded only
 where the DECIMAL(12, 2) column stores it. A row's id is its position in its table:
 nothing in billing deletes a row.
 */
module BillingModel {
  import opened Basics
  import Tax
  import InvoiceNumber

  const INVOICE_NUMBER_GENERATION_MAX_ATTEMPTS := 5

  datatype Status = DRAFT | SENT | PAID | OVERDUE | VOID

  const INVOICE_EDITABLE_STATUSES := {DRAFT}
  const INVOICE_VOIDABLE_STATUSES := {DRAFT, SENT, OVERDUE}

  datatype Item = Item(description: string, quantity: int, unitPrice: int, amount: int, sortOrder: nat)

  datatype Invoice = Invoice(
    tenantId: string, customerId: nat, orderId: nat, taxRateId: Option<nat>,
    number: string, year: nat, items: seq<Item>,
    subtotal: int, tax: int, discount: int, total: int, amountPaid: int,
    status: Status, issuedDate: Option<int>, dueDate: Option<int>)

  datatype Payment = Payment(tenantId: string, invoiceId: Option<nat>, paymentMethodId: Option<nat>, methodText: string, amount: int)

  datatype Allocation = Allocation(tenantId: string, paymentId: nat, invoiceId: nat, amount: int)

  datatype TaxRate = TaxRate(tenantId: string, rate: int, deleted: bool)
  datatype PaymentMethod = PaymentMethod(tenantId: string, name: string, deleted: bool)
  datatype OrderLine = OrderLine(variantId: nat, quantity: int, unitPrice: int, lineTotal: int)
  datatype Order = Order(tenantId: string, customerId: nat, lines: seq<OrderLine>, deleted: bool)
  datatype Variant = Variant(id: nat, tenantId: string, sku: string)

  /** Rows billing only reads; other services change them. */
  datatype Reference = Reference(
    taxRates: map<nat, TaxRate>, paymentMethods: map<nat, PaymentMethod>,
    orders: map<nat, Order>, variants: seq<Variant>)

  datatype Ledger = Ledger(invoices: seq<Invoice>, payments: seq<Payment>, allocations: seq<Allocation>, reference: Reference)

  datatype RecordPayment = RecordPayment(invoiceId: Option<nat>, amount: real, paymentMethodId: Option<nat>, methodText: string)
  datatype CreateInvoice = CreateInvoice(orderId: nat, taxRateId: Option<nat>, dueDate: Option<int>)
  datatype UpdateInvoice = UpdateInvoice(taxRateId: Option<nat>, dueDate: Option<int>)

  datatype Reply = Created(id: nat) | Updated | BadRequest | NotFound | Conflict | ConstraintViolation

  // ---- what the database accepts ----

  /** Storing a decimal in a column of scale 2: ties away from zero. */
  function RoundCents(x: real): int {
    if x >= 0.0 then (x + 0.5).Floor else -((0.5 - x).Floor)
  }

  predicate FitsMoney(x: int) { -1_000_000_000_000 < x < 1_000_000_000_000 }

  predicate ItemAccepted(i: Item) {
    i.quantity > 0 && i.unitPrice >= 0 && i.amount >= 0 && FitsMoney(i.unitPrice) && FitsMoney(i.amount)
  }

  /** The CHECK constraints on an invoice and its items. */
  predicate InvoiceAccepted(v: Invoice) {
    v.subtotal >= 0 && v.tax >= 0 && v.discount >= 0 && v.total >= 0
    && 0 <= v.amountPaid <= v.total
    && FitsMoney(v.subtotal) && FitsMoney(v.tax) && FitsMoney(v.discount) && FitsMoney(v.total)
    && forall i :: 0 <= i < |v.items| ==> ItemAccepted(v.items[i])
  }

  predicate PaymentAccepted(p: Payment) { p.amount >= 0 && FitsMoney(p.amount) }

  predicate AllocationAccepted(a: Allocation) { a.amount > 0 && FitsMoney(a.amount) }

  // ---- queries ----

  predicate InvoiceFound(l: Ledger, id: nat, tenant: string) {
    id < |l.invoices| && l.invoices[id].tenantId == tenant
  }

  predicate PaymentFound(l: Ledger, id: nat, tenant: string) {
    id < |l.payments| && l.payments[id].tenantId == tenant
  }

  predicate TaxRateFound(r: Reference, id: nat, tenant: string) {
    id in r.taxRates && r.taxRates[id].tenantId == tenant && !r.taxRates[id].deleted
  }

  predicate OrderFound(r: Reference, id: nat, tenant: string) {
    id in r.orders && r.orders[id].tenantId == tenant && !r.orders[id].deleted
  }

  predicate PaymentMethodFound(r: Reference, id: nat, tenant: string) {
    id in r.paymentMethods && r.paymentMethods[id].tenantId == tenant && !r.paymentMethods[id].deleted
  }

  /** `SUM(amount) WHERE payment_id = … AND tenant_id = …`. */
  function SumAllocations(allocations: seq<Allocation>, paymentId: nat, tenant: string): int {
    if allocations == [] then 0
    else
      var last := allocations[|allocations| - 1];
      SumAllocations(allocations[..|allocations| - 1], paymentId, tenant)
      + if last.paymentId == paymentId && last.tenantId == tenant then last.amount else 0
  }

  function CountForTenantAndYear(invoices: seq<Invoice>, tenant: string, year: nat): nat {
    if invoices == [] then 0
    else
      var last := invoices[|invoices| - 1];
      CountForTenantAndYear(invoices[..|invoices| - 1], tenant, year)
      + if last.tenantId == tenant && last.year == year then 1 else 0
  }

  predicate NumberTaken(invoices: seq<Invoice>, tenant: string, number: string) {
    exists i :: 0 <= i < |invoices| && invoices[i].tenantId == tenant && invoices[i].number == number
  }

  function GenerateInvoiceNumber(invoices: seq<Invoice>, tenant: string, year: nat): string {
    InvoiceNumber.Format(year, CountForTenantAndYear(invoices, tenant, year) + 1)
  }

  // ---- payments ----

  /** The invoice after an allocation of `amount` has been added to what it had been paid. */
  function Credited(v: Invoice, amount: real): Invoice {
    var newAmountPaid := v.amountPaid as real + amount;
    v.(amountPaid := RoundCents(newAmountPaid),
       status := if newAmountPaid >= v.total as real then PAID else v.status)
  }

  /** Inserts the allocation and credits the invoice; the database may refuse either row. */
  function AllocateTo(l: Ledger, paymentId: nat, invoiceId: nat, amount: real, tenant: string): Option<Ledger>
    requires invoiceId < |l.invoices|
  {
    var a := Allocation(tenant, paymentId, invoiceId, RoundCents(amount));
    var v := Credited(l.invoices[invoiceId], amount);
    if AllocationAccepted(a) && InvoiceAccepted(v)
    then Some(l.(allocations := l.allocations + [a], invoices := l.invoices[invoiceId := v]))
    else None
  }

  predicate AcceptsPayment(v: Invoice, amount: real) {
    v.status != VOID && amount <= (v.total - v.amountPaid) as real
  }

  function RecordStep(l: Ledger, dto: RecordPayment, tenant: string): (Ledger, Reply) {
    if dto.paymentMethodId.None? && dto.methodText == "" then (l, BadRequest)
    else if dto.paymentMethodId.Some? && !PaymentMethodFound(l.reference, dto.paymentMethodId.value, tenant) then (l, BadRequest)
    else if dto.amount <= 0.0 then (l, BadRequest)
    else if dto.invoiceId.Some? && !(InvoiceFound(l, dto.invoiceId.value, tenant)
                                     && AcceptsPayment(l.invoices[dto.invoiceId.value], dto.amount)) then (l, BadRequest)
    else
      var methodText := if dto.paymentMethodId.Some? then l.reference.paymentMethods[dto.paymentMethodId.value].name else dto.methodText;
      var p := Payment(tenant, dto.invoiceId, dto.paymentMethodId, methodText, RoundCents(dto.amount));
      var inserted := l.(payments := l.payments + [p]);
      if !PaymentAccepted(p) then (l, ConstraintViolation)
      else if dto.invoiceId.None? then (inserted, Created(|l.payments|))
      else
        var done := AllocateTo(inserted, |l.payments|, dto.invoiceId.value, dto.amount, tenant);
        if done.Some? then (done.value, Created(|l.payments|)) else (l, ConstraintViolation)
  }

  function AllocateStep(l: Ledger, paymentId: nat, invoiceId: nat, amount: real, tenant: string): (Ledger, Reply) {
    if amount <= 0.0 then (l, BadRequest)
    else if !PaymentFound(l, paymentId, tenant) then (l, NotFound)
    else if !(InvoiceFound(l, invoiceId, tenant) && AcceptsPayment(l.invoices[invoiceId], amount)) then (l, BadRequest)
    else if amount > (l.payments[paymentId].amount - SumAllocations(l.allocations, paymentId, tenant)) as real then (l, BadRequest)
    else
      var done := AllocateTo(l, paymentId, invoiceId, amount, tenant);
      if done.Some? then (done.value, Updated) else (l, ConstraintViolation)
  }

  // ---- invoices ----

  /** Rewrites one invoice row, unless a CHECK refuses the new row. */
  function WriteInvoice(l: Ledger, id: nat, v: Invoice): (Ledger, Reply)
    requires id < |l.invoices|
  {
    if InvoiceAccepted(v) then (l.(invoices := l.invoices[id := v]), Updated) else (l, ConstraintViolation)
  }

  function UpdateStep(l: Ledger, id: nat, dto: UpdateInvoice, tenant: string): (Ledger, Reply) {
    if !InvoiceFound(l, id, tenant) then (l, NotFound)
    else
      var v := l.invoices[id];
      if v.status !in INVOICE_EDITABLE_STATUSES then (l, BadRequest)
      else if dto.taxRateId.Some? && !TaxRateFound(l.reference, dto.taxRateId.value, tenant) then (l, BadRequest)
      else
        var dated := if dto.dueDate.Some? then v.(dueDate := dto.dueDate) else v;
        if dto.taxRateId.None? then WriteInvoice(l, id, dated)
        else
          var tax := Tax.CalculateTax(v.subtotal, l.reference.taxRates[dto.taxRateId.value].rate);
          WriteInvoice(l, id, dated.(taxRateId := dto.taxRateId, tax := tax, total := v.subtotal + tax - v.discount))
  }

  function IssueStep(l: Ledger, id: nat, tenant: string, today: int): (Ledger, Reply) {
    if !InvoiceFound(l, id, tenant) then (l, NotFound)
    else if l.invoices[id].status != DRAFT then (l, BadRequest)
    else WriteInvoice(l, id, l.invoices[id].(status := SENT, issuedDate := Some(today)))
  }

  function VoidStep(l: Ledger, id: nat, tenant: string): (Ledger, Reply) {
    if !InvoiceFound(l, id, tenant) then (l, NotFound)
    else if l.invoices[id].status !in INVOICE_VOIDABLE_STATUSES then (l, BadRequest)
    else WriteInvoice(l, id, l.invoices[id].(status := VOID))
  }

  // ---- creating an invoice from an order ----

  function FindVariantsByIds(variants: seq<Variant>, ids: seq<nat>, tenant: string): seq<Variant> {
    if variants == [] then []
    else
      var last := variants[|variants| - 1];
      FindVariantsByIds(variants[..|variants| - 1], ids, tenant)
      + if last.id in ids && last.tenantId == tenant then [last] else []
  }

  /** `new Map(rows.map(v => [v.id, v]))`: a later row replaces an earlier one. */
  function VariantById(rows: seq<Variant>): map<nat, Variant> {
    if rows == [] then map[] else VariantById(rows[..|rows| - 1])[rows[|rows| - 1].id := rows[|rows| - 1]]
  }

  function DescribeLine(line: OrderLine, sku: Option<string>): string {
    if sku.Some? then "SKU: " + sku.value else "Product variant " + Digits(line.variantId)
  }

  function PrepareItems(order: Order, variants: seq<Variant>, tenant: string): seq<Item> {
    var ids := Dedup<nat>(seq(|order.lines|, i requires 0 <= i < |order.lines| => order.lines[i].variantId));
    var byId := VariantById(FindVariantsByIds(variants, ids, tenant));
    seq(|order.lines|, i requires 0 <= i < |order.lines| =>
      var line := order.lines[i];
      Item(DescribeLine(line, if line.variantId in byId then Some(byId[line.variantId].sku) else None),
           line.quantity, line.unitPrice, line.lineTotal, i))
  }

  function SumAmounts(items: seq<Item>): int {
    if items == [] then 0 else SumAmounts(items[..|items| - 1]) + items[|items| - 1].amount
  }

  function DraftInvoice(l: Ledger, dto: CreateInvoice, tenant: string, year: nat, number: string): Invoice
    requires OrderFound(l.reference, dto.orderId, tenant)
    requires dto.taxRateId.Some? ==> TaxRateFound(l.reference, dto.taxRateId.value, tenant)
  {
    var order := l.reference.orders[dto.orderId];
    var items := PrepareItems(order, l.reference.variants, tenant);
    var subtotal := SumAmounts(items);
    var tax := if dto.taxRateId.Some? then Tax.CalculateTax(subtotal, l.reference.taxRates[dto.taxRateId.value].rate) else 0;
    Invoice(tenant, order.customerId, dto.orderId, dto.taxRateId, number, year, items,
            subtotal, tax, 0, subtotal + tax, 0, DRAFT, None, dto.dueDate)
  }

  /** The draft under the number that counting these rows prints. */
  function Numbering(draft: Invoice, seen: seq<Invoice>): Invoice {
    draft.(number := GenerateInvoiceNumber(seen, draft.tenantId, draft.year))
  }

  /** The table once other requests have committed these drafts, one after another. */
  function Joined(invoices: seq<Invoice>, drafts: seq<Invoice>): seq<Invoice> {
    if drafts == [] then invoices
    else
      var front := Joined(invoices, drafts[..|drafts| - 1]);
      front + [Numbering(drafts[|drafts| - 1], front)]
  }

  /**
   Up to one attempt for each element of `rivals`: count, print a number, insert. The drafts in
   `rivals[k]` are what other requests commit between the count and the insert of attempt `k`.
   */
  function InsertWithRetry(l: Ledger, draft: Invoice, rivals: seq<seq<Invoice>>): (Ledger, Reply)
    decreases |rivals|
  {
    if rivals == [] then (l, Conflict)
    else
      var row := Numbering(draft, l.invoices);
      var raced := l.(invoices := Joined(l.invoices, rivals[0]));
      if !InvoiceAccepted(row) then (raced, ConstraintViolation)
      else if NumberTaken(raced.invoices, row.tenantId, row.number) then InsertWithRetry(raced, draft, rivals[1..])
      else (raced.(invoices := raced.invoices + [row]), Created(|raced.invoices|))
  }

  function CreateStep(l: Ledger, dto: CreateInvoice, tenant: string, year: nat, rivals: seq<seq<Invoice>>): (Ledger, Reply) {
    if !OrderFound(l.reference, dto.orderId, tenant) then (l, BadRequest)
    else if dto.taxRateId.Some? && !TaxRateFound(l.reference, dto.taxRateId.value, tenant) then (l, BadRequest)
    else InsertWithRetry(l, DraftInvoice(l, dto, tenant, year, ""), rivals)
  }

  // ---- runs ----

  datatype Event =
    | Record(payment: RecordPayment, tenant: string)
    | Allocate(paymentId: nat, invoiceId: nat, amount: real, tenant: string)
    | Create(invoice: CreateInvoice, tenant: string, year: nat, rivals: seq<seq<Invoice>>)
    | Update(id: nat, update: UpdateInvoice, tenant: string)
    | Issue(id: nat, tenant: string, today: int)
    | Void(id: nat, tenant: string)
    | ChangeReference(reference: Reference)

  function Step(l: Ledger, e: Event): (Ledger, Reply) {
    match e
    case Record(dto, tenant) => RecordStep(l, dto, tenant)
    case Allocate(p, v, amount, tenant) => AllocateStep(l, p, v, amount, tenant)
    case Create(dto, tenant, year, rivals) => CreateStep(l, dto, tenant, year, rivals)
    case Update(id, dto, tenant) => UpdateStep(l, id, dto, tenant)
    case Issue(id, tenant, today) => IssueStep(l, id, tenant, today)
    case Void(id, tenant) => VoidStep(l, id, tenant)
    case ChangeReference(r) => (l.(reference := r), Updated)
  }

  function Run(l: Ledger, es: seq<Event>): Ledger
    decreases |es|
  {
    if es == [] then l else Run(Step(l, es[0]).0, es[1..])
  }
}
