/**
 Many requests creating invoices over one table, in any order: each counts, prints a number,
 inserts under it, and counts again when the number is taken. Nothing is assumed of the others.
 */
module NumberingRace {
  import opened BillingModel
  import opened InvoiceNumbering

  /** `at`: how many rows there were when the creator counted. */
  datatype Phase = Counting | Counted(at: nat, number: string) | Finished(reply: Reply)

  /** `start`: the size of the series when the creator came; the model keeps it to state what follows. */
  datatype Creator = Creator(draft: Invoice, phase: Phase, attempt: nat, start: nat)

  datatype State = State(invoices: seq<Invoice>, creators: seq<Creator>)

  datatype Step =
    | Come(draft: Invoice)
    | Count(c: nat)
    | Insert(c: nat)
    | Rewrite(i: nat, row: Invoice)

  function SeriesOf(s: State, draft: Invoice): nat {
    CountForTenantAndYear(s.invoices, draft.tenantId, draft.year)
  }

  predicate Enabled(s: State, step: Step) {
    match step
    case Come(_) => true
    case Count(c) => c < |s.creators| && s.creators[c].phase.Counting?
    case Insert(c) => c < |s.creators| && s.creators[c].phase.Counted?
    case Rewrite(i, row) =>
      i < |s.invoices| && row.tenantId == s.invoices[i].tenantId && row.year == s.invoices[i].year
      && row.number == s.invoices[i].number
  }

  function WithPhase(s: State, c: nat, phase: Phase): State
    requires c < |s.creators|
  {
    s.(creators := s.creators[c := s.creators[c].(phase := phase)])
  }

  function InsertStep(s: State, c: nat): State
    requires Enabled(s, Insert(c))
  {
    var creator := s.creators[c];
    var row := creator.draft.(number := creator.phase.number);
    if !InvoiceAccepted(row) then WithPhase(s, c, Finished(ConstraintViolation))
    else if !NumberTaken(s.invoices, row.tenantId, row.number)
    then WithPhase(s, c, Finished(Created(|s.invoices|))).(invoices := s.invoices + [row])
    else if creator.attempt < INVOICE_NUMBER_GENERATION_MAX_ATTEMPTS
    then s.(creators := s.creators[c := creator.(phase := Counting, attempt := creator.attempt + 1)])
    else WithPhase(s, c, Finished(Conflict))
  }

  function Next(s: State, step: Step): State
    requires Enabled(s, step)
  {
    match step
    case Come(draft) => s.(creators := s.creators + [Creator(draft, Counting, 1, SeriesOf(s, draft))])
    case Count(c) =>
      var draft := s.creators[c].draft;
      WithPhase(s, c, Counted(|s.invoices|, GenerateInvoiceNumber(s.invoices, draft.tenantId, draft.year)))
    case Insert(c) => InsertStep(s, c)
    case Rewrite(i, row) => s.(invoices := s.invoices[i := row])
  }

  // ---- the invariant ----

  /** The count that a creator has printed was right when it counted. */
  ghost predicate PrintedOk(s: State, creator: Creator) {
    creator.phase.Counted? ==>
      creator.phase.at <= |s.invoices|
      && creator.phase.number == GenerateInvoiceNumber(s.invoices[..creator.phase.at], creator.draft.tenantId, creator.draft.year)
  }

  /** How many rows of the series a creator has seen or met so far. */
  ghost function Met(s: State, creator: Creator): nat
    requires PrintedOk(s, creator)
  {
    if creator.phase.Counted?
    then CountForTenantAndYear(s.invoices[..creator.phase.at], creator.draft.tenantId, creator.draft.year)
    else SeriesOf(s, creator.draft)
  }

  /** Each failed attempt has cost its creator a row of the series that was not there before. */
  ghost predicate CreatorOk(s: State, creator: Creator) {
    1 <= creator.attempt <= INVOICE_NUMBER_GENERATION_MAX_ATTEMPTS
    && PrintedOk(s, creator)
    && Met(s, creator) >= creator.start + (creator.attempt - 1)
    && (creator.phase == Finished(Conflict) ==>
          SeriesOf(s, creator.draft) >= creator.start + INVOICE_NUMBER_GENERATION_MAX_ATTEMPTS)
  }

  ghost predicate CreatorsOk(s: State) {
    forall c {:trigger s.creators[c]} :: 0 <= c < |s.creators| ==> CreatorOk(s, s.creators[c])
  }

  /** Creators of a series that reported success. */
  function Served(creators: seq<Creator>, tenant: string, year: nat): nat {
    if creators == [] then 0
    else
      var last := creators[|creators| - 1];
      Served(creators[..|creators| - 1], tenant, year)
      + if last.phase.Finished? && last.phase.reply.Created? && last.draft.tenantId == tenant && last.draft.year == year then 1 else 0
  }

  ghost predicate Inv(s: State) {
    Numbered(s.invoices) && CreatorsOk(s)
  }

  // ---- what a row more, or a row rewritten, does to the counts ----

  lemma AppendKeepsCreator(s: State, after: State, row: Invoice, creator: Creator)
    requires CreatorOk(s, creator) && after.invoices == s.invoices + [row]
    ensures CreatorOk(after, creator)
  {
    var draft := creator.draft;
    CountStep(after.invoices, draft.tenantId, draft.year, |s.invoices|);
    assert after.invoices[..|s.invoices|] == s.invoices && after.invoices[..|after.invoices|] == after.invoices;
    if creator.phase.Counted? {
      assert after.invoices[..creator.phase.at] == s.invoices[..creator.phase.at];
    }
  }

  lemma RewriteKeepsCreator(s: State, i: nat, row: Invoice, creator: Creator)
    requires CreatorOk(s, creator) && Enabled(s, Rewrite(i, row))
    ensures CreatorOk(Next(s, Rewrite(i, row)), creator)
  {
    var after := s.invoices[i := row];
    var draft := creator.draft;
    CountIgnoresOtherFields(s.invoices, after, draft.tenantId, draft.year);
    if creator.phase.Counted? {
      CountIgnoresOtherFields(s.invoices[..creator.phase.at], after[..creator.phase.at], draft.tenantId, draft.year);
    }
  }

  // ---- one attempt ----

  /** The rows that were committed while the creator was between its count and its insert. */
  ghost function Since(s: State, c: nat): seq<Invoice>
    requires Inv(s) && Enabled(s, Insert(c))
  {
    assert CreatorOk(s, s.creators[c]);
    s.invoices[s.creators[c].phase.at..]
  }

  /** In every interleaving a number is taken exactly when a row of the series was committed since the count. */
  lemma TakenIffRivalCommitted(s: State, c: nat)
    requires Inv(s) && Enabled(s, Insert(c))
    ensures var draft := s.creators[c].draft;
            (NumberTaken(s.invoices, draft.tenantId, s.creators[c].phase.number)
             <==> HasSeries(Since(s, c), draft.tenantId, draft.year))
            && (!HasSeries(Since(s, c), draft.tenantId, draft.year) ==>
                  draft.(number := s.creators[c].phase.number) == Numbering(draft, s.invoices))
  {
    assert CreatorOk(s, s.creators[c]);
    var draft, at := s.creators[c].draft, s.creators[c].phase.at;
    var before, since := s.invoices[..at], s.invoices[at..];
    assert before + since == s.invoices;
    CollisionIffRival(before, since, draft.tenantId, draft.year);
    if !HasSeries(since, draft.tenantId, draft.year) {
      NoSeriesSameCount(before, since, draft.tenantId, draft.year);
    }
  }

  /** A row of the series among the later ones makes the count larger. */
  lemma SeriesGrew(s: State, c: nat)
    requires Inv(s) && Enabled(s, Insert(c)) && HasSeries(Since(s, c), s.creators[c].draft.tenantId, s.creators[c].draft.year)
    ensures SeriesOf(s, s.creators[c].draft) >= Met(s, s.creators[c]) + 1
  {
    var draft, at := s.creators[c].draft, s.creators[c].phase.at;
    var i :| 0 <= i < |Since(s, c)| && SameSeries(Since(s, c)[i], draft.tenantId, draft.year);
    assert s.invoices[..|s.invoices|] == s.invoices;
    CountGrows(s.invoices, draft.tenantId, draft.year, at, at + i);
    SequenceGrows(s.invoices, draft.tenantId, draft.year, at + i, |s.invoices|);
  }

  lemma InserterKept(s: State, c: nat)
    requires Inv(s) && Enabled(s, Insert(c)) && Next(s, Insert(c)).invoices == s.invoices
    ensures CreatorOk(Next(s, Insert(c)), Next(s, Insert(c)).creators[c])
  {
    var creator := s.creators[c];
    assert CreatorOk(s, creator);
    assert s.invoices[..|s.invoices|] == s.invoices;
    CountGrows(s.invoices, creator.draft.tenantId, creator.draft.year, creator.phase.at, |s.invoices|);
    TakenIffRivalCommitted(s, c);
    if HasSeries(Since(s, c), creator.draft.tenantId, creator.draft.year) { SeriesGrew(s, c); }
  }

  /** A served creator appends its draft exactly as if it had counted and inserted in one step. */
  lemma ServedAsIfAlone(s: State, c: nat)
    requires Inv(s) && Enabled(s, Insert(c)) && Next(s, Insert(c)).invoices != s.invoices
    ensures Next(s, Insert(c)).invoices == s.invoices + [Numbering(s.creators[c].draft, s.invoices)]
    ensures Next(s, Insert(c)).creators[c].phase == Finished(Created(|s.invoices|))
  {
    TakenIffRivalCommitted(s, c);
  }

  lemma ServedKept(s: State, c: nat)
    requires Inv(s) && Enabled(s, Insert(c)) && Next(s, Insert(c)).invoices != s.invoices
    ensures Inv(Next(s, Insert(c)))
  {
    var after := Next(s, Insert(c));
    var creator := s.creators[c];
    var row := Numbering(creator.draft, s.invoices);
    ServedAsIfAlone(s, c);
    AppendNumbered(s.invoices, row);
    forall d | 0 <= d < |after.creators| ensures CreatorOk(after, after.creators[d]) {
      AppendKeepsCreator(s, after, row, s.creators[d]);
      if d == c { ServedCreatorOk(s, after, row, creator, after.creators[c]); }
    }
  }

  lemma ServedCreatorOk(s: State, after: State, row: Invoice, creator: Creator, served: Creator)
    requires CreatorOk(after, creator) && creator.phase.Counted? && served.phase.Finished? && served.phase.reply.Created?
    requires served == creator.(phase := served.phase) && after.invoices == s.invoices + [row]
    ensures CreatorOk(after, served)
  {
    assert after.invoices[..|after.invoices|] == after.invoices;
    CountGrows(after.invoices, creator.draft.tenantId, creator.draft.year, creator.phase.at, |after.invoices|);
  }

  lemma UnservedKept(s: State, c: nat)
    requires Inv(s) && Enabled(s, Insert(c)) && Next(s, Insert(c)).invoices == s.invoices
    ensures Inv(Next(s, Insert(c)))
  {
    var after := Next(s, Insert(c));
    forall d | 0 <= d < |after.creators| ensures CreatorOk(after, after.creators[d]) {
      if d == c { InserterKept(s, c); } else { assert CreatorOk(s, s.creators[d]); }
    }
  }

  lemma CountKept(s: State, c: nat)
    requires Inv(s) && Enabled(s, Count(c))
    ensures Inv(Next(s, Count(c)))
  {
    var after := Next(s, Count(c));
    assert s.invoices[..|s.invoices|] == s.invoices;
    forall d | 0 <= d < |after.creators| ensures CreatorOk(after, after.creators[d]) {
      assert CreatorOk(s, s.creators[d]);
    }
  }

  lemma StepKeepsInv(s: State, step: Step)
    requires Inv(s) && Enabled(s, step)
    ensures Inv(Next(s, step))
  {
    match step
    case Come(draft) =>
      var after := Next(s, step);
      forall d | 0 <= d < |after.creators| ensures CreatorOk(after, after.creators[d]) {
        if d < |s.creators| { assert CreatorOk(s, s.creators[d]); }
      }
    case Count(c) => CountKept(s, c);
    case Insert(c) =>
      if Next(s, step).invoices == s.invoices { UnservedKept(s, c); } else { ServedKept(s, c); }
    case Rewrite(i, row) =>
      UpdateKeepsNumbered(s.invoices, i, row);
      forall d | 0 <= d < |s.creators| ensures CreatorOk(Next(s, step), s.creators[d]) {
        RewriteKeepsCreator(s, i, row, s.creators[d]);
      }
  }

  // ---- every success is one row of the series ----

  lemma {:induction false} ServedUpdate(creators: seq<Creator>, c: nat, creator: Creator, tenant: string, year: nat)
    requires c < |creators| && creator.draft == creators[c].draft
    requires !(creators[c].phase.Finished? && creators[c].phase.reply.Created?)
    ensures Served(creators[c := creator], tenant, year)
         == Served(creators, tenant, year)
            + if creator.phase.Finished? && creator.phase.reply.Created? && SameSeries(creator.draft, tenant, year) then 1 else 0
    decreases |creators|
  {
    var n := |creators| - 1;
    if c == n {
      assert creators[c := creator][..n] == creators[..n];
    } else {
      assert creators[c := creator][..n] == creators[..n][c := creator];
      ServedUpdate(creators[..n], c, creator, tenant, year);
    }
  }

  ghost function Unaccounted(s: State, tenant: string, year: nat): int {
    CountForTenantAndYear(s.invoices, tenant, year) - Served(s.creators, tenant, year)
  }

  lemma EverySuccessIsARow(s: State, step: Step, tenant: string, year: nat)
    requires Enabled(s, step)
    ensures Unaccounted(Next(s, step), tenant, year) == Unaccounted(s, tenant, year)
  {
    var after := Next(s, step);
    match step
    case Come(_) => assert after.creators[..|s.creators|] == s.creators;
    case Count(c) => ServedUpdate(s.creators, c, after.creators[c], tenant, year);
    case Insert(c) =>
      ServedUpdate(s.creators, c, after.creators[c], tenant, year);
      if after.invoices != s.invoices { assert after.invoices[..|s.invoices|] == s.invoices; }
    case Rewrite(i, row) => CountIgnoresOtherFields(s.invoices, after.invoices, tenant, year);
  }

  // ---- runs ----

  ghost predicate Runs(s: State, steps: seq<Step>, end: State)
    decreases |steps|
  {
    if steps == [] then end == s else Enabled(s, steps[0]) && Runs(Next(s, steps[0]), steps[1..], end)
  }

  /** A table that creation alone has numbered, and nobody creating yet. */
  ghost predicate Quiet(s: State) {
    Numbered(s.invoices) && s.creators == []
  }

  lemma {:induction false} RunKeeps(s: State, steps: seq<Step>, end: State, tenant: string, year: nat)
    requires Inv(s) && Runs(s, steps, end)
    ensures Inv(end) && Unaccounted(end, tenant, year) == Unaccounted(s, tenant, year)
    decreases |steps|
  {
    if steps != [] {
      StepKeepsInv(s, steps[0]);
      EverySuccessIsARow(s, steps[0], tenant, year);
      RunKeeps(Next(s, steps[0]), steps[1..], end, tenant, year);
    }
  }

  /** However many requests create invoices at once, no two invoices of a tenant ever carry the same number. */
  lemma NumbersUniqueInEveryInterleaving(s: State, steps: seq<Step>, end: State, i: nat, j: nat)
    requires Quiet(s) && Runs(s, steps, end)
    requires i < j < |end.invoices| && end.invoices[i].tenantId == end.invoices[j].tenantId
    ensures end.invoices[i].number != end.invoices[j].number
  {
    RunKeeps(s, steps, end, "", 0);
    NumbersUnique(end.invoices, i, j);
  }

  /** In every interleaving the invoices of a tenant and year carry exactly the numbers from 1 on, without a gap. */
  lemma NoGapsInEveryInterleaving(s: State, steps: seq<Step>, end: State, tenant: string, year: nat)
    requires Quiet(s) && Runs(s, steps, end)
    ensures CarriesOneTo(end.invoices, tenant, year, CountForTenantAndYear(end.invoices, tenant, year))
  {
    RunKeeps(s, steps, end, tenant, year);
    NoGaps(end.invoices, tenant, year);
  }

  /** The rows a series has gained are exactly its creators that reported success. */
  lemma OneRowPerSuccess(s: State, steps: seq<Step>, end: State, tenant: string, year: nat)
    requires Quiet(s) && Runs(s, steps, end)
    ensures CountForTenantAndYear(end.invoices, tenant, year)
         == CountForTenantAndYear(s.invoices, tenant, year) + Served(end.creators, tenant, year)
  {
    RunKeeps(s, steps, end, tenant, year);
  }

  /** Nobody counts fewer rows of a series than there were at the beginning. */
  ghost predicate StartedAfter(s: State, tenant: string, year: nat, base: nat) {
    CountForTenantAndYear(s.invoices, tenant, year) >= base
    && forall c :: 0 <= c < |s.creators| && SameSeries(s.creators[c].draft, tenant, year) ==> s.creators[c].start >= base
  }

  lemma StartedAfterKept(s: State, step: Step, tenant: string, year: nat, base: nat)
    requires Enabled(s, step) && StartedAfter(s, tenant, year, base)
    ensures StartedAfter(Next(s, step), tenant, year, base)
  {
    var after := Next(s, step);
    if step.Rewrite? { CountIgnoresOtherFields(s.invoices, after.invoices, tenant, year); }
    if after.invoices != s.invoices && !step.Rewrite? { assert after.invoices[..|s.invoices|] == s.invoices; }
  }

  lemma {:induction false} StartedAfterBase(s: State, steps: seq<Step>, end: State, tenant: string, year: nat, base: nat)
    requires Runs(s, steps, end) && StartedAfter(s, tenant, year, base)
    ensures StartedAfter(end, tenant, year, base)
    decreases |steps|
  {
    if steps != [] {
      StartedAfterKept(s, steps[0], tenant, year, base);
      StartedAfterBase(Next(s, steps[0]), steps[1..], end, tenant, year, base);
    }
  }

  /** A creator gives up only when at least five others of its tenant and year have been served meanwhile. */
  lemma ConflictMeansFiveServed(s: State, steps: seq<Step>, end: State, c: nat)
    requires Quiet(s) && Runs(s, steps, end)
    requires c < |end.creators| && end.creators[c].phase == Finished(Conflict)
    ensures Served(end.creators, end.creators[c].draft.tenantId, end.creators[c].draft.year) >= INVOICE_NUMBER_GENERATION_MAX_ATTEMPTS
  {
    var tenant, year := end.creators[c].draft.tenantId, end.creators[c].draft.year;
    RunKeeps(s, steps, end, tenant, year);
    assert CreatorOk(end, end.creators[c]);
    StartedAfterBase(s, steps, end, tenant, year, CountForTenantAndYear(s.invoices, tenant, year));
  }

  lemma {:induction false} ServedWithin(creators: seq<Creator>, tenant: string, year: nat)
    ensures Served(creators, tenant, year) <= |creators|
    ensures (exists c :: 0 <= c < |creators| && creators[c].phase == Finished(Conflict)) ==> Served(creators, tenant, year) < |creators|
  {
    if creators != [] {
      var n := |creators| - 1;
      ServedWithin(creators[..n], tenant, year);
      if c :| 0 <= c < |creators| && creators[c].phase == Finished(Conflict) {
        assert c < n ==> creators[..n][c].phase == Finished(Conflict);
      }
    }
  }

  /** So with at most five requests at once nobody ever gives up. */
  lemma FiveNeverConflict(s: State, steps: seq<Step>, end: State, c: nat)
    requires Quiet(s) && Runs(s, steps, end) && |end.creators| <= INVOICE_NUMBER_GENERATION_MAX_ATTEMPTS
    requires c < |end.creators|
    ensures end.creators[c].phase != Finished(Conflict)
  {
    if end.creators[c].phase == Finished(Conflict) {
      ConflictMeansFiveServed(s, steps, end, c);
      ServedWithin(end.creators, end.creators[c].draft.tenantId, end.creators[c].draft.year);
    }
  }

  // ---- five served rivals are enough ----

  lemma {:induction false} RunsAppend(s: State, first: seq<Step>, middle: State, second: seq<Step>, end: State)
    requires Runs(s, first, middle) && Runs(middle, second, end)
    ensures Runs(s, first + second, end)
    decreases |first|
  {
    if first == [] {
      assert first + second == second;
    } else {
      RunsAppend(Next(s, first[0]), first[1..], middle, second, end);
      assert (first + second)[1..] == first[1..] + second;
    }
  }

  lemma Then(s: State, step: Step, steps: seq<Step>, end: State)
    requires Enabled(s, step) && Runs(Next(s, step), steps, end)
    ensures Runs(s, [step] + steps, end)
  {
    assert ([step] + steps)[1..] == steps;
  }

  /** The first creator has failed in its present attempt. */
  function Failed(creator: Creator): Creator {
    if creator.attempt < INVOICE_NUMBER_GENERATION_MAX_ATTEMPTS
    then creator.(phase := Counting, attempt := creator.attempt + 1)
    else creator.(phase := Finished(Conflict))
  }

  /** A newcomer that counts and inserts at once is served. */
  lemma NewcomerIsServed(s: State, draft: Invoice) returns (steps: seq<Step>, end: State)
    requires Inv(s) && InvoiceAccepted(draft)
    ensures Runs(s, steps, end) && Inv(end) && |end.creators| == |s.creators| + 1
    ensures forall c :: 0 <= c < |s.creators| ==> end.creators[c] == s.creators[c]
    ensures end.invoices == s.invoices + [Numbering(draft, s.invoices)]
  {
    var c := |s.creators|;
    var came := Next(s, Come(draft));
    StepKeepsInv(s, Come(draft));
    var counted := Next(came, Count(c));
    StepKeepsInv(came, Count(c));
    TakenIffRivalCommitted(counted, c);
    end := Next(counted, Insert(c));
    StepKeepsInv(counted, Insert(c));
    assert Runs(end, [], end);
    Then(counted, Insert(c), [], end);
    Then(came, Count(c), [Insert(c)] + [], end);
    Then(s, Come(draft), [Count(c)] + ([Insert(c)] + []), end);
    steps := [Come(draft)] + ([Count(c)] + ([Insert(c)] + []));
  }

  /** A creator that has counted fails if a row of its series was committed since. */
  lemma LosesToRival(s: State, c: nat)
    requires Inv(s) && Enabled(s, Insert(c)) && InvoiceAccepted(s.creators[c].draft)
    requires HasSeries(Since(s, c), s.creators[c].draft.tenantId, s.creators[c].draft.year)
    ensures Inv(Next(s, Insert(c))) && Next(s, Insert(c)) == s.(creators := s.creators[c := Failed(s.creators[c])])
  {
    StepKeepsInv(s, Insert(c));
    TakenIffRivalCommitted(s, c);
  }

  /** One round: the first creator counts, a newcomer is served, and the first one's number is gone. */
  lemma LosesARound(s: State, draft: Invoice) returns (steps: seq<Step>, end: State)
    requires Inv(s) && Enabled(s, Count(0)) && s.creators[0].draft == draft && InvoiceAccepted(draft)
    ensures Runs(s, steps, end) && Inv(end) && |end.creators| == |s.creators| + 1
    ensures end.creators[0] == Failed(s.creators[0])
  {
    var counted := Next(s, Count(0));
    StepKeepsInv(s, Count(0));
    var middle, served := NewcomerIsServed(counted, draft);
    var since := Since(served, 0);
    assert since == [Numbering(draft, s.invoices)] && SameSeries(since[0], draft.tenantId, draft.year);
    LosesToRival(served, 0);
    end := Next(served, Insert(0));
    assert Runs(end, [], end);
    Then(served, Insert(0), [], end);
    RunsAppend(counted, middle, served, [Insert(0)] + [], end);
    Then(s, Count(0), middle + ([Insert(0)] + []), end);
    steps := [Count(0)] + (middle + ([Insert(0)] + []));
  }

  lemma {:induction false} LosesEveryRound(s: State, draft: Invoice) returns (steps: seq<Step>, end: State)
    requires Inv(s) && Enabled(s, Count(0)) && s.creators[0].draft == draft && InvoiceAccepted(draft)
    ensures Runs(s, steps, end) && |end.creators| == |s.creators| + INVOICE_NUMBER_GENERATION_MAX_ATTEMPTS + 1 - s.creators[0].attempt
    ensures end.creators[0].phase == Finished(Conflict)
    decreases INVOICE_NUMBER_GENERATION_MAX_ATTEMPTS - s.creators[0].attempt
  {
    assert CreatorOk(s, s.creators[0]);
    steps, end := LosesARound(s, draft);
    if s.creators[0].attempt < INVOICE_NUMBER_GENERATION_MAX_ATTEMPTS {
      var rest, last := LosesEveryRound(end, draft);
      RunsAppend(s, steps, end, rest, last);
      steps, end := steps + rest, last;
    }
  }

  /** The bounds are exact: among six requests one can lose to each of the five others and give up. */
  lemma SixCanConflict(draft: Invoice) returns (steps: seq<Step>, end: State)
    requires InvoiceAccepted(draft)
    ensures Quiet(State([], [])) && Runs(State([], []), steps, end)
    ensures |end.creators| == INVOICE_NUMBER_GENERATION_MAX_ATTEMPTS + 1 && end.creators[0].phase == Finished(Conflict)
  {
    var s := State([], []);
    StepKeepsInv(s, Come(draft));
    var rest, last := LosesEveryRound(Next(s, Come(draft)), draft);
    Then(s, Come(draft), rest, last);
    steps, end := [Come(draft)] + rest, last;
  }
}
