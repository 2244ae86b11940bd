/** Invoice numbers per tenant and year: what counting rows and retrying on collision achieves. */
module InvoiceNumbering {
  import opened BillingModel
  import InvoiceNumber

  /** Row `i` carries the sequence number of its insertion among the rows of its tenant and year. */
  ghost predicate NumberedAt(invoices: seq<Invoice>, i: nat)
    requires i < |invoices|
  {
    invoices[i].number == GenerateInvoiceNumber(invoices[..i], invoices[i].tenantId, invoices[i].year)
  }

  ghost predicate Numbered(invoices: seq<Invoice>) {
    forall i :: 0 <= i < |invoices| ==> NumberedAt(invoices, i)
  }

  ghost predicate SameSeries(v: Invoice, tenant: string, year: nat) {
    v.tenantId == tenant && v.year == year
  }

  /** Some row of this tenant and year is among `rows`. */
  ghost predicate HasSeries(rows: seq<Invoice>, tenant: string, year: nat) {
    exists i :: 0 <= i < |rows| && SameSeries(rows[i], tenant, year)
  }

  lemma {:induction false} CountGrows(invoices: seq<Invoice>, tenant: string, year: nat, i: nat, j: nat)
    requires i <= j <= |invoices|
    ensures CountForTenantAndYear(invoices[..i], tenant, year) <= CountForTenantAndYear(invoices[..j], tenant, year)
    decreases j
  {
    if i < j {
      assert invoices[..j][..j - 1] == invoices[..j - 1];
      CountGrows(invoices, tenant, year, i, j - 1);
    }
  }

  lemma CountStep(invoices: seq<Invoice>, tenant: string, year: nat, i: nat)
    requires i < |invoices|
    ensures CountForTenantAndYear(invoices[..i + 1], tenant, year)
         == CountForTenantAndYear(invoices[..i], tenant, year) + if SameSeries(invoices[i], tenant, year) then 1 else 0
  {
    assert invoices[..i + 1][..i] == invoices[..i];
  }

  /** A later row of the same series carries a larger sequence number. */
  lemma SequenceGrows(invoices: seq<Invoice>, tenant: string, year: nat, i: nat, j: nat)
    requires i < j <= |invoices| && SameSeries(invoices[i], tenant, year)
    ensures CountForTenantAndYear(invoices[..i], tenant, year) < CountForTenantAndYear(invoices[..j], tenant, year)
  {
    CountStep(invoices, tenant, year, i);
    CountGrows(invoices, tenant, year, i + 1, j);
  }

  /** Numbers printed for different years or different counts differ. */
  lemma PrintedNumbersDiffer(before: seq<Invoice>, after: seq<Invoice>, tenant: string, year: nat, otherYear: nat)
    requires year == otherYear ==> CountForTenantAndYear(before, tenant, year) < CountForTenantAndYear(after, tenant, otherYear)
    ensures GenerateInvoiceNumber(before, tenant, year) != GenerateInvoiceNumber(after, tenant, otherYear)
  {
    var m, n := CountForTenantAndYear(before, tenant, year) + 1, CountForTenantAndYear(after, tenant, otherYear) + 1;
    if InvoiceNumber.Format(year, m) == InvoiceNumber.Format(otherYear, n) {
      InvoiceNumber.FormatInjective(year, m, otherYear, n);
    }
  }

  lemma NumberAt(invoices: seq<Invoice>, i: nat)
    requires Numbered(invoices) && i < |invoices|
    ensures invoices[i].number == GenerateInvoiceNumber(invoices[..i], invoices[i].tenantId, invoices[i].year)
  {
    assert NumberedAt(invoices, i);
  }

  /** Two rows of one tenant never carry the same number, whatever their years. */
  lemma NumbersUnique(invoices: seq<Invoice>, i: nat, j: nat)
    requires Numbered(invoices) && i < j < |invoices| && invoices[i].tenantId == invoices[j].tenantId
    ensures invoices[i].number != invoices[j].number
  {
    var tenant, year := invoices[i].tenantId, invoices[i].year;
    NumberAt(invoices, i);
    NumberAt(invoices, j);
    SequenceGrows(invoices, tenant, year, i, j);
    PrintedNumbersDiffer(invoices[..i], invoices[..j], tenant, year, invoices[j].year);
  }

  /** A series of `n` rows carries exactly the numbers 1 to `n`, each once. */
  ghost predicate CarriesOneTo(invoices: seq<Invoice>, tenant: string, year: nat, n: nat) {
    (forall k: nat {:trigger InvoiceNumber.Format(year, k)} ::
       1 <= k <= n ==> HasNumber(invoices, tenant, year, InvoiceNumber.Format(year, k)))
    && (forall i :: 0 <= i < |invoices| && SameSeries(invoices[i], tenant, year) ==> IsOneOf(invoices[i].number, year, n))
    && (forall i, j :: 0 <= i < j < |invoices| && SameSeries(invoices[i], tenant, year) && SameSeries(invoices[j], tenant, year)
          ==> invoices[i].number != invoices[j].number)
  }

  ghost predicate HasNumber(invoices: seq<Invoice>, tenant: string, year: nat, number: string) {
    exists i :: 0 <= i < |invoices| && SameSeries(invoices[i], tenant, year) && invoices[i].number == number
  }

  ghost predicate IsOneOf(number: string, year: nat, n: nat) {
    exists k: nat {:trigger InvoiceNumber.Format(year, k)} :: 1 <= k <= n && number == InvoiceNumber.Format(year, k)
  }

  lemma HasNumberInLonger(invoices: seq<Invoice>, n: nat, tenant: string, year: nat, number: string)
    requires n <= |invoices| && HasNumber(invoices[..n], tenant, year, number)
    ensures HasNumber(invoices, tenant, year, number)
  {
    var i :| 0 <= i < n && SameSeries(invoices[..n][i], tenant, year) && invoices[..n][i].number == number;
    assert invoices[i] == invoices[..n][i];
  }

  /** The last row of a series carries its size. */
  lemma LastCarriesSize(invoices: seq<Invoice>, tenant: string, year: nat)
    requires Numbered(invoices) && invoices != [] && SameSeries(invoices[|invoices| - 1], tenant, year)
    ensures HasNumber(invoices, tenant, year, InvoiceNumber.Format(year, CountForTenantAndYear(invoices, tenant, year)))
  {
    NumberAt(invoices, |invoices| - 1);
  }

  lemma {:induction false} EveryNumberIsThere(invoices: seq<Invoice>, tenant: string, year: nat, k: nat)
    requires Numbered(invoices) && 1 <= k <= CountForTenantAndYear(invoices, tenant, year)
    ensures HasNumber(invoices, tenant, year, InvoiceNumber.Format(year, k))
    decreases |invoices|
  {
    var n := |invoices| - 1;
    if k <= CountForTenantAndYear(invoices[..n], tenant, year) {
      NumberedPrefix(invoices, n);
      EveryNumberIsThere(invoices[..n], tenant, year, k);
      HasNumberInLonger(invoices, n, tenant, year, InvoiceNumber.Format(year, k));
    } else {
      LastCarriesSize(invoices, tenant, year);
    }
  }

  lemma PrintedIsOneOf(before: seq<Invoice>, tenant: string, year: nat, n: nat)
    requires CountForTenantAndYear(before, tenant, year) < n
    ensures IsOneOf(GenerateInvoiceNumber(before, tenant, year), year, n)
  {
    assert GenerateInvoiceNumber(before, tenant, year) == InvoiceNumber.Format(year, CountForTenantAndYear(before, tenant, year) + 1);
  }

  lemma RowHasOneOf(invoices: seq<Invoice>, tenant: string, year: nat, i: nat)
    requires Numbered(invoices) && i < |invoices| && SameSeries(invoices[i], tenant, year)
    ensures IsOneOf(invoices[i].number, year, CountForTenantAndYear(invoices, tenant, year))
  {
    NumberAt(invoices, i);
    assert invoices[..|invoices|] == invoices;
    SequenceGrows(invoices, tenant, year, i, |invoices|);
    PrintedIsOneOf(invoices[..i], tenant, year, CountForTenantAndYear(invoices, tenant, year));
  }

  /** Numbered by counting means numbered from 1 without a gap. */
  lemma NoGaps(invoices: seq<Invoice>, tenant: string, year: nat)
    requires Numbered(invoices)
    ensures CarriesOneTo(invoices, tenant, year, CountForTenantAndYear(invoices, tenant, year))
  {
    forall k: nat | 1 <= k <= CountForTenantAndYear(invoices, tenant, year)
      ensures HasNumber(invoices, tenant, year, InvoiceNumber.Format(year, k))
    {
      EveryNumberIsThere(invoices, tenant, year, k);
    }
    forall i | 0 <= i < |invoices| && SameSeries(invoices[i], tenant, year)
      ensures IsOneOf(invoices[i].number, year, CountForTenantAndYear(invoices, tenant, year))
    {
      RowHasOneOf(invoices, tenant, year, i);
    }
    forall i, j | 0 <= i < j < |invoices| && SameSeries(invoices[i], tenant, year) && SameSeries(invoices[j], tenant, year)
      ensures invoices[i].number != invoices[j].number
    {
      NumbersUnique(invoices, i, j);
    }
  }

  lemma {:induction false} NoSeriesSameCount(before: seq<Invoice>, rivals: seq<Invoice>, tenant: string, year: nat)
    requires !HasSeries(rivals, tenant, year)
    ensures CountForTenantAndYear(before + rivals, tenant, year) == CountForTenantAndYear(before, tenant, year)
  {
    if rivals == [] {
      assert before + rivals == before;
    } else {
      var n := |rivals| - 1;
      assert (before + rivals)[..|before| + n] == before + rivals[..n];
      assert !SameSeries(rivals[n], tenant, year);
      NoSeriesSameCount(before, rivals[..n], tenant, year);
    }
  }

  lemma NumberedPrefix(invoices: seq<Invoice>, n: nat)
    requires Numbered(invoices) && n <= |invoices|
    ensures Numbered(invoices[..n])
  {
    forall i | 0 <= i < n ensures NumberedAt(invoices[..n], i) {
      assert NumberedAt(invoices, i);
      assert invoices[..n][..i] == invoices[..i];
    }
  }

  lemma TakenInLonger(invoices: seq<Invoice>, n: nat, tenant: string, number: string)
    requires n <= |invoices| && NumberTaken(invoices[..n], tenant, number)
    ensures NumberTaken(invoices, tenant, number)
  {
    var i :| 0 <= i < n && invoices[..n][i].tenantId == tenant && invoices[..n][i].number == number;
    assert invoices[i].tenantId == tenant && invoices[i].number == number;
  }

  /** The first rival of the series took exactly the number that was about to be printed. */
  lemma {:induction false} FirstRivalTookIt(before: seq<Invoice>, rivals: seq<Invoice>, tenant: string, year: nat)
    requires Numbered(before + rivals) && HasSeries(rivals, tenant, year)
    ensures NumberTaken(before + rivals, tenant, GenerateInvoiceNumber(before, tenant, year))
    decreases |rivals|
  {
    var front := rivals[..|rivals| - 1];
    SeriesInFrontOrLast(rivals, tenant, year);
    if HasSeries(front, tenant, year) {
      WithoutLast(before, rivals);
      NumberedPrefix(before + rivals, |before + front|);
      FirstRivalTookIt(before, front, tenant, year);
      TakenInLonger(before + rivals, |before + front|, tenant, GenerateInvoiceNumber(before, tenant, year));
    } else {
      NoSeriesSameCount(before, front, tenant, year);
      LastRivalTookIt(before, rivals, tenant, year);
    }
  }

  lemma WithoutLast(before: seq<Invoice>, rivals: seq<Invoice>)
    requires rivals != []
    ensures (before + rivals)[..|before + rivals[..|rivals| - 1]|] == before + rivals[..|rivals| - 1]
  {
  }

  lemma SeriesInFrontOrLast(rows: seq<Invoice>, tenant: string, year: nat)
    requires HasSeries(rows, tenant, year)
    ensures rows != [] && (HasSeries(rows[..|rows| - 1], tenant, year) || SameSeries(rows[|rows| - 1], tenant, year))
  {
    var i :| 0 <= i < |rows| && SameSeries(rows[i], tenant, year);
    if i < |rows| - 1 { assert SameSeries(rows[..|rows| - 1][i], tenant, year); }
  }

  lemma TakenAt(invoices: seq<Invoice>, i: nat, tenant: string, number: string)
    requires i < |invoices| && invoices[i].tenantId == tenant && invoices[i].number == number
    ensures NumberTaken(invoices, tenant, number)
  {
  }

  lemma SamePrint(a: seq<Invoice>, b: seq<Invoice>, tenant: string, year: nat)
    requires CountForTenantAndYear(a, tenant, year) == CountForTenantAndYear(b, tenant, year)
    ensures GenerateInvoiceNumber(a, tenant, year) == GenerateInvoiceNumber(b, tenant, year)
  {
  }

  /** The last row of a table took the number that was printed from as many rows of its series. */
  lemma LastRowTookIt(front: seq<Invoice>, last: Invoice, before: seq<Invoice>)
    requires Numbered(front + [last])
    requires CountForTenantAndYear(front, last.tenantId, last.year) == CountForTenantAndYear(before, last.tenantId, last.year)
    ensures NumberTaken(front + [last], last.tenantId, GenerateInvoiceNumber(before, last.tenantId, last.year))
  {
    NumberAt(front + [last], |front|);
    assert (front + [last])[..|front|] == front && (front + [last])[|front|] == last;
    SamePrint(front, before, last.tenantId, last.year);
    TakenAt(front + [last], |front|, last.tenantId, last.number);
  }

  lemma LastRivalTookIt(before: seq<Invoice>, rivals: seq<Invoice>, tenant: string, year: nat)
    requires Numbered(before + rivals) && rivals != [] && SameSeries(rivals[|rivals| - 1], tenant, year)
    requires CountForTenantAndYear(before + rivals[..|rivals| - 1], tenant, year) == CountForTenantAndYear(before, tenant, year)
    ensures NumberTaken(before + rivals, tenant, GenerateInvoiceNumber(before, tenant, year))
  {
    var front, last := before + rivals[..|rivals| - 1], rivals[|rivals| - 1];
    assert before + rivals == front + [last];
    LastRowTookIt(front, last, before);
  }

  /** Without a rival of the series the printed number is nobody's. */
  lemma QuietNumberIsFree(before: seq<Invoice>, rivals: seq<Invoice>, tenant: string, year: nat, i: nat)
    requires Numbered(before + rivals) && !HasSeries(rivals, tenant, year)
    requires i < |before + rivals| && (before + rivals)[i].tenantId == tenant
    ensures (before + rivals)[i].number != GenerateInvoiceNumber(before, tenant, year)
  {
    var all := before + rivals;
    NumberAt(all, i);
    if all[i].year == year {
      assert i >= |before| ==> !SameSeries(rivals[i - |before|], tenant, year);
      assert all[..|before|] == before;
      SequenceGrows(all, tenant, year, i, |before|);
    }
    PrintedNumbersDiffer(all[..i], before, tenant, all[i].year, year);
  }

  /**
   A printed number is refused exactly when a request of the same tenant and year committed
   between the count and the insert.
   */
  lemma CollisionIffRival(before: seq<Invoice>, rivals: seq<Invoice>, tenant: string, year: nat)
    requires Numbered(before + rivals)
    ensures NumberTaken(before + rivals, tenant, GenerateInvoiceNumber(before, tenant, year))
       <==> HasSeries(rivals, tenant, year)
  {
    if HasSeries(rivals, tenant, year) {
      FirstRivalTookIt(before, rivals, tenant, year);
    } else {
      forall i | 0 <= i < |before + rivals| && (before + rivals)[i].tenantId == tenant
        ensures (before + rivals)[i].number != GenerateInvoiceNumber(before, tenant, year)
      {
        QuietNumberIsFree(before, rivals, tenant, year, i);
      }
    }
  }

  /** Appending a row under a freshly printed number keeps the numbering. */
  lemma AppendNumbered(invoices: seq<Invoice>, row: Invoice)
    requires Numbered(invoices) && row.number == GenerateInvoiceNumber(invoices, row.tenantId, row.year)
    ensures Numbered(invoices + [row])
  {
    var all := invoices + [row];
    forall i | 0 <= i < |all| ensures NumberedAt(all, i) {
      assert all[..i] == invoices[..i];
      if i < |invoices| { assert NumberedAt(invoices, i); }
      else { assert all[..i] == invoices; }
    }
  }

  /** A change that keeps every row's tenant, year and number keeps the numbering. */
  lemma {:induction false} CountIgnoresOtherFields(a: seq<Invoice>, b: seq<Invoice>, tenant: string, year: nat)
    requires |a| == |b| && forall i :: 0 <= i < |a| ==> a[i].tenantId == b[i].tenantId && a[i].year == b[i].year
    ensures CountForTenantAndYear(a, tenant, year) == CountForTenantAndYear(b, tenant, year)
    decreases |a|
  {
    if a != [] { CountIgnoresOtherFields(a[..|a| - 1], b[..|b| - 1], tenant, year); }
  }

  lemma UpdateKeepsNumbered(invoices: seq<Invoice>, id: nat, row: Invoice)
    requires Numbered(invoices) && id < |invoices|
    requires row.tenantId == invoices[id].tenantId && row.year == invoices[id].year && row.number == invoices[id].number
    ensures Numbered(invoices[id := row])
  {
    var after := invoices[id := row];
    forall i | 0 <= i < |after| ensures NumberedAt(after, i) {
      assert NumberedAt(invoices, i);
      CountIgnoresOtherFields(invoices[..i], after[..i], after[i].tenantId, after[i].year);
    }
  }

  // ---- what others commit meanwhile ----

  ghost predicate SameButNumber(draft: Invoice, row: Invoice) { row == draft.(number := row.number) }

  lemma {:induction false} JoinedGrows(invoices: seq<Invoice>, drafts: seq<Invoice>)
    ensures |Joined(invoices, drafts)| == |invoices| + |drafts| && invoices <= Joined(invoices, drafts)
    decreases |drafts|
  {
    if drafts != [] { JoinedGrows(invoices, drafts[..|drafts| - 1]); }
  }

  /** The last draft joins the others. */
  lemma JoinedLast(invoices: seq<Invoice>, drafts: seq<Invoice>) returns (front: seq<Invoice>, row: Invoice)
    requires drafts != []
    ensures front == Joined(invoices, drafts[..|drafts| - 1]) && |front| == |invoices| + |drafts| - 1
    ensures SameButNumber(drafts[|drafts| - 1], row) && Joined(invoices, drafts) == front + [row]
  {
    front := Joined(invoices, drafts[..|drafts| - 1]);
    row := Numbering(drafts[|drafts| - 1], front);
    JoinedGrows(invoices, drafts[..|drafts| - 1]);
  }

  lemma AtOrBefore(front: seq<Invoice>, row: Invoice, i: nat)
    requires i <= |front|
    ensures (front + [row])[i] == if i < |front| then front[i] else row
  {
  }

  /** Others append their drafts as they are, under numbers of their own. */
  lemma {:induction false} JoinedRow(invoices: seq<Invoice>, drafts: seq<Invoice>, i: nat)
    requires i < |drafts|
    ensures |Joined(invoices, drafts)| == |invoices| + |drafts|
    ensures SameButNumber(drafts[i], Joined(invoices, drafts)[|invoices| + i])
    decreases |drafts|
  {
    var front, row := JoinedLast(invoices, drafts);
    AtOrBefore(front, row, |invoices| + i);
    if i < |drafts| - 1 { JoinedRow(invoices, drafts[..|drafts| - 1], i); }
  }

  lemma {:induction false} JoinedNumbered(invoices: seq<Invoice>, drafts: seq<Invoice>)
    requires Numbered(invoices)
    ensures Numbered(Joined(invoices, drafts))
    decreases |drafts|
  {
    if drafts != [] {
      var front := drafts[..|drafts| - 1];
      JoinedNumbered(invoices, front);
      AppendNumbered(Joined(invoices, front), Numbering(drafts[|drafts| - 1], Joined(invoices, front)));
    }
  }

  /** The rows that were appended, and whether one is of the series. */
  lemma JoinedSeries(invoices: seq<Invoice>, drafts: seq<Invoice>, tenant: string, year: nat) returns (rows: seq<Invoice>)
    ensures Joined(invoices, drafts) == invoices + rows && |rows| == |drafts|
    ensures HasSeries(rows, tenant, year) <==> HasSeries(drafts, tenant, year)
  {
    JoinedGrows(invoices, drafts);
    rows := Joined(invoices, drafts)[|invoices|..];
    forall i | 0 <= i < |drafts| ensures SameSeries(rows[i], tenant, year) == SameSeries(drafts[i], tenant, year) {
      JoinedRow(invoices, drafts, i);
    }
  }

  lemma CollisionIffRivalDraft(invoices: seq<Invoice>, drafts: seq<Invoice>, tenant: string, year: nat)
    requires Numbered(invoices)
    ensures NumberTaken(Joined(invoices, drafts), tenant, GenerateInvoiceNumber(invoices, tenant, year))
       <==> HasSeries(drafts, tenant, year)
    ensures !HasSeries(drafts, tenant, year) ==>
              GenerateInvoiceNumber(Joined(invoices, drafts), tenant, year) == GenerateInvoiceNumber(invoices, tenant, year)
  {
    JoinedNumbered(invoices, drafts);
    var rows := JoinedSeries(invoices, drafts, tenant, year);
    CollisionIffRival(invoices, rows, tenant, year);
    if !HasSeries(drafts, tenant, year) { NoSeriesSameCount(invoices, rows, tenant, year); }
  }

  // ---- the bounded retry ----

  /** The invoice table after the first `k` rounds of rivals. */
  ghost function WithRivals(invoices: seq<Invoice>, rivals: seq<seq<Invoice>>, k: nat): seq<Invoice>
    requires k <= |rivals|
  {
    if k == 0 then invoices else Joined(WithRivals(invoices, rivals, k - 1), rivals[k - 1])
  }

  lemma {:induction false} WithRivalsShift(invoices: seq<Invoice>, rivals: seq<seq<Invoice>>, k: nat)
    requires 1 <= k <= |rivals|
    ensures WithRivals(invoices, rivals, k) == WithRivals(Joined(invoices, rivals[0]), rivals[1..], k - 1)
  {
    if k > 1 {
      WithRivalsShift(invoices, rivals, k - 1);
      assert rivals[1..][k - 2] == rivals[k - 1];
    } else {
      assert WithRivals(invoices, rivals, 0) == invoices;
    }
  }

  /** The first attempt whose round brings no rival of the series; the number of attempts if there is none. */
  ghost function FirstQuietRound(rivals: seq<seq<Invoice>>, tenant: string, year: nat): (k: nat)
    ensures k <= |rivals|
    ensures k < |rivals| ==> !HasSeries(rivals[k], tenant, year)
    ensures forall j :: 0 <= j < k ==> HasSeries(rivals[j], tenant, year)
  {
    if rivals == [] || !HasSeries(rivals[0], tenant, year) then 0 else 1 + FirstQuietRound(rivals[1..], tenant, year)
  }

  /** One quiet attempt inserts the draft under the next number of the series. */
  lemma QuietAttempt(l: Ledger, draft: Invoice, rivals: seq<seq<Invoice>>)
    requires rivals != [] && Numbered(l.invoices) && InvoiceAccepted(draft)
    requires !HasSeries(rivals[0], draft.tenantId, draft.year)
    ensures var others := Joined(l.invoices, rivals[0]);
            var row := Numbering(draft, others);
            InsertWithRetry(l, draft, rivals) == (l.(invoices := others + [row]), Created(|others|))
            && Numbered(others + [row])
  {
    var others := Joined(l.invoices, rivals[0]);
    CollisionIffRivalDraft(l.invoices, rivals[0], draft.tenantId, draft.year);
    JoinedNumbered(l.invoices, rivals[0]);
    AppendNumbered(others, Numbering(draft, others));
  }

  /** An attempt that meets a rival of its series leaves only the rivals behind and goes on. */
  lemma RacedAttempt(l: Ledger, draft: Invoice, rivals: seq<seq<Invoice>>)
    requires rivals != [] && Numbered(l.invoices) && InvoiceAccepted(draft)
    requires HasSeries(rivals[0], draft.tenantId, draft.year)
    ensures InsertWithRetry(l, draft, rivals)
         == InsertWithRetry(l.(invoices := Joined(l.invoices, rivals[0])), draft, rivals[1..])
  {
    CollisionIffRivalDraft(l.invoices, rivals[0], draft.tenantId, draft.year);
  }

  /** The loop's outcome by its first quiet round: the draft under the next number, or a conflict and nothing. */
  ghost function QuietRoundOutcome(l: Ledger, draft: Invoice, rivals: seq<seq<Invoice>>, k: nat): (Ledger, Reply)
    requires k <= |rivals|
  {
    if k == |rivals| then (l.(invoices := WithRivals(l.invoices, rivals, k)), Conflict)
    else
      var others := WithRivals(l.invoices, rivals, k + 1);
      (l.(invoices := others + [Numbering(draft, others)]), Created(|others|))
  }

  lemma LaterQuietRound(l: Ledger, draft: Invoice, rivals: seq<seq<Invoice>>, k: nat)
    requires 1 <= k <= |rivals|
    ensures QuietRoundOutcome(l, draft, rivals, k)
         == QuietRoundOutcome(l.(invoices := Joined(l.invoices, rivals[0])), draft, rivals[1..], k - 1)
  {
    WithRivalsShift(l.invoices, rivals, if k < |rivals| then k + 1 else k);
  }

  /**
   The retry loop succeeds exactly when some attempt meets no rival of its tenant and year, and
   then adds exactly one row, under the next number of the series, to what the rivals left. If
   every attempt meets one it reports a conflict and adds nothing.
   */
  lemma {:induction false} RetryOutcome(l: Ledger, draft: Invoice, rivals: seq<seq<Invoice>>)
    requires Numbered(l.invoices)
    requires InvoiceAccepted(draft)
    ensures InsertWithRetry(l, draft, rivals)
         == QuietRoundOutcome(l, draft, rivals, FirstQuietRound(rivals, draft.tenantId, draft.year))
    decreases |rivals|
  {
    if rivals != [] {
      var raced := l.(invoices := Joined(l.invoices, rivals[0]));
      JoinedNumbered(l.invoices, rivals[0]);
      if HasSeries(rivals[0], draft.tenantId, draft.year) {
        RacedAttempt(l, draft, rivals);
        RetryOutcome(raced, draft, rivals[1..]);
        LaterQuietRound(l, draft, rivals, FirstQuietRound(rivals, draft.tenantId, draft.year));
      } else {
        QuietAttempt(l, draft, rivals);
        assert WithRivals(l.invoices, rivals, 0) == l.invoices;
      }
    }
  }

  /** Without a concurrent request the first attempt succeeds: sequential runs never retry. */
  lemma SequentialCreateNeverRetries(l: Ledger, draft: Invoice, attempts: nat)
    requires Numbered(l.invoices) && InvoiceAccepted(draft) && attempts > 0
    ensures var none := seq(attempts, _ => []);
            InsertWithRetry(l, draft, none) == (l.(invoices := l.invoices + [Numbering(draft, l.invoices)]), Created(|l.invoices|))
  {
    var none: seq<seq<Invoice>> := seq(attempts, _ => []);
    QuietAttempt(l, draft, none);
  }
}
