/**
 The payment and invoice services over one database: methods that insert and rewrite rows one
 at a time, undo a transaction the database refuses, and are each proved to perform exactly
 one transition of the model and to keep the ledger's invariant.
 */
module BillingService {
  import opened Basics
  import opened BillingModel
  import opened LedgerInvariant
  import Tax

  class Database {
    var invoices: seq<Invoice>
    var payments: seq<Payment>
    var allocations: seq<Allocation>
    var reference: Reference

    constructor (reference: Reference)
      requires RatesOk(reference)
      ensures View() == EmptyLedger(reference) && LedgerOk(View())
    {
      invoices, payments, allocations := [], [], [];
      this.reference := reference;
    }

    ghost function View(): Ledger
      reads this
    {
      Ledger(invoices, payments, allocations, reference)
    }
  }

  class PaymentService {
    const db: Database

    constructor (db: Database)
      ensures this.db == db
    {
      this.db := db;
    }

    /** Writes the allocation row, then the invoice row; false when the database refuses either. */
    method ApplyAllocation(paymentId: nat, invoiceId: nat, amount: real, tenant: string) returns (ok: bool)
      requires invoiceId < |db.invoices|
      modifies db`invoices, db`allocations
      ensures ok == AllocateTo(old(db.View()), paymentId, invoiceId, amount, tenant).Some?
      ensures ok ==> Some(db.View()) == AllocateTo(old(db.View()), paymentId, invoiceId, amount, tenant)
    {
      var a := Allocation(tenant, paymentId, invoiceId, RoundCents(amount));
      db.allocations := db.allocations + [a];
      var invoice := db.invoices[invoiceId];
      var newAmountPaid := invoice.amountPaid as real + amount;
      invoice := invoice.(amountPaid := RoundCents(newAmountPaid));
      if newAmountPaid >= invoice.total as real {
        invoice := invoice.(status := PAID);
      }
      db.invoices := db.invoices[invoiceId := invoice];
      ok := AllocationAccepted(a) && InvoiceAccepted(invoice);
    }

    method Record(dto: RecordPayment, tenant: string) returns (reply: Reply)
      requires LedgerOk(db.View())
      modifies db
      ensures (db.View(), reply) == RecordStep(old(db.View()), dto, tenant)
      ensures LedgerOk(db.View())
    {
      RecordKeepsOk(db.View(), dto, tenant);
      if dto.paymentMethodId.None? && dto.methodText == "" {
        return BadRequest;
      }
      var methodText := dto.methodText;
      if dto.paymentMethodId.Some? {
        if !PaymentMethodFound(db.reference, dto.paymentMethodId.value, tenant) {
          return BadRequest;
        }
        methodText := db.reference.paymentMethods[dto.paymentMethodId.value].name;
      }
      if dto.amount <= 0.0 {
        return BadRequest;
      }
      if dto.invoiceId.Some? {
        var id := dto.invoiceId.value;
        if id >= |db.invoices| || db.invoices[id].tenantId != tenant {
          return BadRequest;
        }
        var invoice := db.invoices[id];
        if invoice.status == VOID || dto.amount > (invoice.total - invoice.amountPaid) as real {
          return BadRequest;
        }
      }
      reply := RecordInTransaction(dto, methodText, tenant);
    }

    /** The transaction of `Record`: all three rows, or none. */
    method RecordInTransaction(dto: RecordPayment, methodText: string, tenant: string) returns (reply: Reply)
      requires dto.invoiceId.Some? ==> dto.invoiceId.value < |db.invoices|
      modifies db`invoices, db`payments, db`allocations
      ensures var l := old(db.View());
              var p := Payment(tenant, dto.invoiceId, dto.paymentMethodId, methodText, RoundCents(dto.amount));
              var inserted := l.(payments := l.payments + [p]);
              (db.View(), reply) ==
                if !PaymentAccepted(p) then (l, ConstraintViolation)
                else if dto.invoiceId.None? then (inserted, Created(|l.payments|))
                else
                  var done := AllocateTo(inserted, |l.payments|, dto.invoiceId.value, dto.amount, tenant);
                  if done.Some? then (done.value, Created(|l.payments|)) else (l, ConstraintViolation)
    {
      var invoices, payments, allocations := db.invoices, db.payments, db.allocations;
      var p := Payment(tenant, dto.invoiceId, dto.paymentMethodId, methodText, RoundCents(dto.amount));
      if !PaymentAccepted(p) {
        return ConstraintViolation;
      }
      db.payments := db.payments + [p];
      reply := Created(|payments|);
      if dto.invoiceId.Some? {
        var ok := ApplyAllocation(|payments|, dto.invoiceId.value, dto.amount, tenant);
        if !ok {
          db.invoices, db.payments, db.allocations := invoices, payments, allocations;
          reply := ConstraintViolation;
        }
      }
    }

    method Allocate(paymentId: nat, invoiceId: nat, amount: real, tenant: string) returns (reply: Reply)
      requires LedgerOk(db.View())
      modifies db
      ensures (db.View(), reply) == AllocateStep(old(db.View()), paymentId, invoiceId, amount, tenant)
      ensures LedgerOk(db.View())
    {
      AllocateKeepsOk(db.View(), paymentId, invoiceId, amount, tenant);
      if amount <= 0.0 {
        return BadRequest;
      }
      if paymentId >= |db.payments| || db.payments[paymentId].tenantId != tenant {
        return NotFound;
      }
      if invoiceId >= |db.invoices| || db.invoices[invoiceId].tenantId != tenant {
        return BadRequest;
      }
      var invoice := db.invoices[invoiceId];
      if invoice.status == VOID || amount > (invoice.total - invoice.amountPaid) as real {
        return BadRequest;
      }
      var alreadyAllocated := SumAllocations(db.allocations, paymentId, tenant);
      if amount > (db.payments[paymentId].amount - alreadyAllocated) as real {
        return BadRequest;
      }
      var invoices, allocations := db.invoices, db.allocations;
      var ok := ApplyAllocation(paymentId, invoiceId, amount, tenant);
      reply := Updated;
      if !ok {
        db.invoices, db.allocations := invoices, allocations;
        reply := ConstraintViolation;
      }
    }
  }

  /** One round of the retry: refused by a CHECK, number taken, or inserted. */
  lemma OneRound(l: Ledger, draft: Invoice, rivals: seq<seq<Invoice>>)
    requires rivals != []
    ensures var raced := l.(invoices := Joined(l.invoices, rivals[0]));
            var row := Numbering(draft, l.invoices);
            InsertWithRetry(l, draft, rivals)
            == if !InvoiceAccepted(row) then (raced, ConstraintViolation)
               else if NumberTaken(raced.invoices, row.tenantId, row.number) then InsertWithRetry(raced, draft, rivals[1..])
               else (raced.(invoices := raced.invoices + [row]), Created(|raced.invoices|))
  {
  }

  /** Once order and tax rate are found, creating is inserting the draft. */
  lemma CreationInserts(l: Ledger, dto: CreateInvoice, tenant: string, year: nat, rivals: seq<seq<Invoice>>)
    requires OrderFound(l.reference, dto.orderId, tenant)
    requires dto.taxRateId.Some? ==> TaxRateFound(l.reference, dto.taxRateId.value, tenant)
    ensures CreateStep(l, dto, tenant, year, rivals) == InsertWithRetry(l, DraftInvoice(l, dto, tenant, year, ""), rivals)
  {
  }

  class InvoiceService {
    const db: Database

    constructor (db: Database)
      ensures this.db == db
    {
      this.db := db;
    }

    /** `UPDATE invoices SET … WHERE id = …`, refused by a CHECK or applied. */
    method Write(id: nat, invoice: Invoice) returns (reply: Reply)
      requires id < |db.invoices|
      modifies db`invoices
      ensures (db.View(), reply) == WriteInvoice(old(db.View()), id, invoice)
    {
      if !InvoiceAccepted(invoice) {
        return ConstraintViolation;
      }
      db.invoices := db.invoices[id := invoice];
      reply := Updated;
    }

    method Update(id: nat, dto: UpdateInvoice, tenant: string) returns (reply: Reply)
      requires LedgerOk(db.View())
      modifies db
      ensures (db.View(), reply) == UpdateStep(old(db.View()), id, dto, tenant)
      ensures LedgerOk(db.View())
    {
      UpdateKeepsOk(db.View(), id, dto, tenant);
      if id >= |db.invoices| || db.invoices[id].tenantId != tenant {
        return NotFound;
      }
      var existing := db.invoices[id];
      if existing.status !in INVOICE_EDITABLE_STATUSES {
        return BadRequest;
      }
      var taxRateId, taxAmount, totalAmount := existing.taxRateId, existing.tax, existing.total;
      if dto.taxRateId.Some? {
        if !TaxRateFound(db.reference, dto.taxRateId.value, tenant) {
          return BadRequest;
        }
        taxAmount := Tax.CalculateTax(existing.subtotal, db.reference.taxRates[dto.taxRateId.value].rate);
        totalAmount := existing.subtotal + taxAmount - existing.discount;
        taxRateId := dto.taxRateId;
      }
      var updated := existing.(taxRateId := taxRateId, tax := taxAmount, total := totalAmount,
                              dueDate := if dto.dueDate.Some? then dto.dueDate else existing.dueDate);
      reply := Write(id, updated);
    }

    method Issue(id: nat, tenant: string, today: int) returns (reply: Reply)
      requires LedgerOk(db.View())
      modifies db
      ensures (db.View(), reply) == IssueStep(old(db.View()), id, tenant, today)
      ensures LedgerOk(db.View())
    {
      IssueKeepsOk(db.View(), id, tenant, today);
      if id >= |db.invoices| || db.invoices[id].tenantId != tenant {
        return NotFound;
      }
      if db.invoices[id].status != DRAFT {
        return BadRequest;
      }
      reply := Write(id, db.invoices[id].(status := SENT, issuedDate := Some(today)));
    }

    method Void(id: nat, tenant: string) returns (reply: Reply)
      requires LedgerOk(db.View())
      modifies db
      ensures (db.View(), reply) == VoidStep(old(db.View()), id, tenant)
      ensures LedgerOk(db.View())
    {
      VoidKeepsOk(db.View(), id, tenant);
      if id >= |db.invoices| || db.invoices[id].tenantId != tenant {
        return NotFound;
      }
      if db.invoices[id].status !in INVOICE_VOIDABLE_STATUSES {
        return BadRequest;
      }
      reply := Write(id, db.invoices[id].(status := VOID));
    }

    /** `rivals[k]`: drafts that other requests commit while attempt `k` is between its count and its insert. */
    method CreateFromOrder(dto: CreateInvoice, tenant: string, year: nat, rivals: seq<seq<Invoice>>) returns (reply: Reply)
      requires LedgerOk(db.View()) && RivalsOk(rivals)
      requires |rivals| == INVOICE_NUMBER_GENERATION_MAX_ATTEMPTS
      modifies db
      ensures (db.View(), reply) == CreateStep(old(db.View()), dto, tenant, year, rivals)
      ensures LedgerOk(db.View())
    {
      ghost var before := db.View();
      CreateKeepsOk(before, dto, tenant, year, rivals);
      if !OrderFound(db.reference, dto.orderId, tenant) {
        return BadRequest;
      }
      if dto.taxRateId.Some? && !TaxRateFound(db.reference, dto.taxRateId.value, tenant) {
        return BadRequest;
      }
      var draft := Prepare(dto, tenant, year);
      CreationInserts(before, dto, tenant, year, rivals);
      reply := InsertWithNumber(draft, rivals);
    }

    /** The draft: its items, subtotal, tax and total, from the order and the tax rate that were found. */
    method Prepare(dto: CreateInvoice, tenant: string, year: nat) returns (draft: Invoice)
      requires OrderFound(db.reference, dto.orderId, tenant)
      requires dto.taxRateId.Some? ==> TaxRateFound(db.reference, dto.taxRateId.value, tenant)
      ensures draft == DraftInvoice(db.View(), dto, tenant, year, "")
    {
      var order := db.reference.orders[dto.orderId];
      var items := PrepareItems(order, db.reference.variants, tenant);
      var subtotal := SumAmounts(items);
      var taxAmount := 0;
      if dto.taxRateId.Some? {
        taxAmount := Tax.CalculateTax(subtotal, db.reference.taxRates[dto.taxRateId.value].rate);
      }
      draft := Invoice(tenant, order.customerId, dto.orderId, dto.taxRateId, "", year, items,
                       subtotal, taxAmount, 0, subtotal + taxAmount, 0, DRAFT, None, dto.dueDate);
    }

    method InsertWithNumber(draft: Invoice, rivals: seq<seq<Invoice>>) returns (reply: Reply)
      modifies db`invoices
      ensures (db.View(), reply) == InsertWithRetry(old(db.View()), draft, rivals)
    {
      ghost var before := db.View();
      for attempt := 0 to |rivals|
        invariant InsertWithRetry(before, draft, rivals) == InsertWithRetry(db.View(), draft, rivals[attempt..])
      {
        ghost var rest := rivals[attempt..];
        assert rest[1..] == rivals[attempt + 1..];
        var done := InsertOnce(draft, rivals[attempt], rest);
        if done.Some? {
          return done.value;
        }
      }
      reply := Conflict;
    }

    /** One attempt: count, print, insert; no reply when the number was taken meanwhile. */
    method InsertOnce(draft: Invoice, meanwhile: seq<Invoice>, ghost rivals: seq<seq<Invoice>>) returns (reply: Option<Reply>)
      requires rivals != [] && rivals[0] == meanwhile
      modifies db`invoices
      ensures InsertWithRetry(old(db.View()), draft, rivals)
           == if reply.Some? then (db.View(), reply.value) else InsertWithRetry(db.View(), draft, rivals[1..])
    {
      OneRound(db.View(), draft, rivals);
      ghost var raced := db.View().(invoices := Joined(db.invoices, meanwhile));
      var row := draft.(number := GenerateInvoiceNumber(db.invoices, draft.tenantId, draft.year));
      db.invoices := Joined(db.invoices, meanwhile);
      assert db.View() == raced;
      if !InvoiceAccepted(row) {
        return Some(ConstraintViolation);
      }
      if NumberTaken(db.invoices, row.tenantId, row.number) {
        return None;
      }
      reply := Some(Created(|db.invoices|));
      db.invoices := db.invoices + [row];
    }
  }
}
