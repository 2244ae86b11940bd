/**
 Requests of many tenants over shared pools of connections, step by step and in any order: begin a
 transaction on the hook's opener, set the tenant, execute, then commit or abort and perhaps retry.
 Row-level security admits an operation on a tenant's row only under that tenant's setting.
 */
module TenantTransactions {
  import opened Basics
  import opened PrismaClient
  import PrismaErrors
  import RetryPolicy
  import TransactionRetry

  type Js = PrismaErrors.Js

  /** A row is named by its tenant, its model and a key of its own. */
  datatype RowKey = RowKey(tenant: string, model: string, key: string)

  datatype Op = Put(row: RowKey, value: int) | Get(row: RowKey)

  /** What an operation answers: the value of a row it may see, otherwise nothing. */
  type Answer = Option<int>

  type Rows = map<RowKey, int>

  datatype Choice = Do(op: Op) | Finish

  /**
   A model call through the patched client, or the callback form of `$transaction`: a program
   that chooses its next operation by what the operations before it answered.
   */
  datatype Request = ModelCall(context: Option<string>, op: Op) | Interactive(context: Option<string>, program: seq<Answer> -> Choice)

  /** The patched client, the client that transactions are opened on, and the last argument of `set_config`. */
  datatype Deployment = Deployment(service: Client, opener: Client, isLocal: bool)

  /**
   `local` is the tenant set for this transaction alone, `session` what the connection's own
   setting becomes if it commits; `writes` are not yet visible to others.
   */
  datatype Txn = Txn(owner: nat, local: Option<string>, session: Option<string>, writes: Rows, seen: seq<Answer>)

  /** A connection of `client`'s pool with its own setting, which outlives transactions. */
  datatype Connection = Connection(client: Client, session: Option<string>, txn: Option<Txn>)

  /** An open request may be waiting for a `child`: the call its transaction client's patched delegate made. */
  datatype Phase = Waiting | Open(conn: nat, tenantSet: bool, child: Option<nat>) | Done(ok: bool)

  datatype Running = Running(request: Request, phase: Phase, attempt: nat)

  datatype Executed = Executed(request: nat, conn: nat, op: Op, setting: Option<string>, inTransaction: bool, seen: Answer)

  datatype Commit = Commit(request: nat, seen: seq<Answer>, writes: Rows)

  datatype State = State(
    deployment: Deployment, connections: seq<Connection>, requests: seq<Running>,
    rows: Rows, commits: seq<Commit>, log: seq<Executed>)

  /** The tenant that scopes a request; an empty id counts as none. */
  function TenantOf(r: Request): Option<string> {
    if r.context.Some? && r.context.value != "" then r.context else None
  }

  function Decide(r: Request, seen: seq<Answer>): Choice {
    match r
    case ModelCall(_, op) => if seen == [] then Do(op) else Finish
    case Interactive(_, program) => program(seen)
  }

  /** A model call without a tenant passes through unwrapped. */
  predicate Transactional(r: Request) {
    r.Interactive? || TenantOf(r).Some?
  }

  function Setting(c: Connection): Option<string> {
    if c.txn.None? then c.session
    else if c.txn.value.local.Some? then c.txn.value.local
    else c.txn.value.session
  }

  /** The row-level security policy, for reading and for writing. */
  predicate Admits(setting: Option<string>, row: RowKey) {
    setting == Some(row.tenant)
  }

  function Lookup(rows: Rows, row: RowKey): Answer {
    if row in rows then Some(rows[row]) else None
  }

  /** What an operation answers over these rows under this setting. */
  function Observed(rows: Rows, setting: Option<string>, op: Op): Answer {
    if op.Get? && Admits(setting, op.row) then Lookup(rows, op.row) else None
  }

  function Written(writes: Rows, op: Op): Rows {
    if op.Put? then writes[op.row := op.value] else writes
  }

  /** A plain delegate of the transaction's client runs; so does a wrapped one when there is no tenant. */
  predicate RunsInPlace(d: Deployment, r: Request, op: Op) {
    HasPlain(TransactionClient(d.opener), op.row.model)
    || (HasWrapped(TransactionClient(d.opener), op.row.model) && TenantOf(r).None?)
  }

  /** A wrapped delegate of the transaction's client makes the call all over again, for the same tenant. */
  predicate Nests(d: Deployment, r: Request, op: Op) {
    HasWrapped(TransactionClient(d.opener), op.row.model) && TenantOf(r).Some?
  }

  datatype Step =
    | Submit(request: Request)
    | Begin(r: nat, c: nat)
    | SetTenant(r: nat)
    | Execute(r: nat)
    | Nest(r: nat)
    | Resume(r: nat, answer: Answer)
    | CommitTxn(r: nat)
    | CommitLost(r: nat, error: Js)
    | Abort(r: nat, error: Js)
    | CannotBegin(r: nat, error: Js)
    | Direct(r: nat, c: nat)

  predicate IsOpen(s: State, r: nat) {
    r < |s.requests| && s.requests[r].phase.Open? && s.requests[r].phase.conn < |s.connections|
    && s.connections[s.requests[r].phase.conn].txn.Some?
  }

  predicate Ready(s: State, r: nat) {
    IsOpen(s, r) && s.requests[r].phase.tenantSet && s.requests[r].phase.child.None?
  }

  function ConnOf(s: State, r: nat): nat
    requires IsOpen(s, r)
  {
    s.requests[r].phase.conn
  }

  function TxnOf(s: State, r: nat): Txn
    requires IsOpen(s, r)
  {
    s.connections[ConnOf(s, r)].txn.value
  }

  function Chosen(s: State, r: nat): Choice
    requires IsOpen(s, r)
  {
    Decide(s.requests[r].request, TxnOf(s, r).seen)
  }

  predicate Enabled(s: State, step: Step) {
    match step
    case Submit(request) => request.ModelCall? ==> HasWrapped(s.deployment.service, request.op.row.model)
    case Begin(r, c) =>
      r < |s.requests| && s.requests[r].phase.Waiting? && Transactional(s.requests[r].request)
      && c < |s.connections| && s.connections[c].client == s.deployment.opener && s.connections[c].txn.None?
    case SetTenant(r) => IsOpen(s, r) && !s.requests[r].phase.tenantSet
    case Execute(r) =>
      Ready(s, r) && Chosen(s, r).Do? && RunsInPlace(s.deployment, s.requests[r].request, Chosen(s, r).op)
      && (Chosen(s, r).op.Put? ==> Admits(Setting(s.connections[ConnOf(s, r)]), Chosen(s, r).op.row))
    case Nest(r) => Ready(s, r) && Chosen(s, r).Do? && Nests(s.deployment, s.requests[r].request, Chosen(s, r).op)
    case Resume(r, _) =>
      IsOpen(s, r) && s.requests[r].phase.child.Some? && s.requests[r].phase.child.value < |s.requests|
      && s.requests[s.requests[r].phase.child.value].phase == Done(true)
    case CommitTxn(r) => Ready(s, r) && Chosen(s, r).Finish?
    case CommitLost(r, _) => Ready(s, r) && Chosen(s, r).Finish?
    case Abort(r, _) => IsOpen(s, r)
    case CannotBegin(r, _) => r < |s.requests| && s.requests[r].phase.Waiting? && Transactional(s.requests[r].request)
    case Direct(r, c) =>
      r < |s.requests| && s.requests[r].phase.Waiting? && !Transactional(s.requests[r].request)
      && c < |s.connections| && s.connections[c].client == s.deployment.service && s.connections[c].txn.None?
  }

  /** The error of this attempt ends the retry loop. */
  predicate GivesUp(running: Running, error: Js) {
    TransactionRetry.Terminal(error, RetryPolicy.DB_TRANSACTION_RETRY_POLICY, running.attempt)
  }

  /** After a failed attempt the request waits for another, unless the retry loop gives up. */
  function AfterFailure(running: Running, error: Js): Running {
    if GivesUp(running, error) then running.(phase := Done(false))
    else running.(phase := Waiting, attempt := running.attempt + 1)
  }

  /** `set_config(name, tenant, isLocal)`, which is only issued when there is a tenant. */
  function SetConfig(txn: Txn, tenant: Option<string>, isLocal: bool): Txn {
    if tenant.None? then txn else if isLocal then txn.(local := tenant) else txn.(session := tenant)
  }

  function WithTxn(s: State, c: nat, txn: Option<Txn>): State
    requires c < |s.connections|
  {
    s.(connections := s.connections[c := s.connections[c].(txn := txn)])
  }

  function WithRunning(s: State, r: nat, running: Running): State
    requires r < |s.requests|
  {
    s.(requests := s.requests[r := running])
  }

  /** The transaction's writes become visible and `conn` takes the place of its connection. */
  function Committed(s: State, r: nat, conn: Connection, running: Running): State
    requires IsOpen(s, r)
  {
    var txn := TxnOf(s, r);
    State(s.deployment, s.connections[ConnOf(s, r) := conn], s.requests[r := running],
          s.rows + txn.writes, s.commits + [Commit(r, txn.seen, txn.writes)], s.log)
  }

  function Next(s: State, step: Step): State
    requires Enabled(s, step)
  {
    match step
    case Submit(request) => s.(requests := s.requests + [Running(request, Waiting, 1)])
    case Begin(r, c) =>
      WithRunning(WithTxn(s, c, Some(Txn(r, None, s.connections[c].session, map[], []))),
                  r, s.requests[r].(phase := Open(c, false, None)))
    case SetTenant(r) =>
      WithRunning(WithTxn(s, ConnOf(s, r), Some(SetConfig(TxnOf(s, r), TenantOf(s.requests[r].request), s.deployment.isLocal))),
                  r, s.requests[r].(phase := Open(ConnOf(s, r), true, None)))
    case Execute(r) =>
      var c, txn, op := ConnOf(s, r), TxnOf(s, r), Chosen(s, r).op;
      var setting := Setting(s.connections[c]);
      var answer := Observed(s.rows + txn.writes, setting, op);
      WithTxn(s, c, Some(txn.(seen := txn.seen + [answer], writes := Written(txn.writes, op))))
        .(log := s.log + [Executed(r, c, op, setting, true, answer)])
    case Nest(r) =>
      s.(requests := s.requests[r := s.requests[r].(phase := Open(ConnOf(s, r), true, Some(|s.requests|)))]
                     + [Running(ModelCall(s.requests[r].request.context, Chosen(s, r).op), Waiting, 1)])
    case Resume(r, answer) =>
      WithRunning(WithTxn(s, ConnOf(s, r), Some(TxnOf(s, r).(seen := TxnOf(s, r).seen + [answer]))),
                  r, s.requests[r].(phase := Open(ConnOf(s, r), true, None)))
    case CommitTxn(r) =>
      Committed(s, r, Connection(s.connections[ConnOf(s, r)].client, TxnOf(s, r).session, None),
                s.requests[r].(phase := Done(true)))
    case CommitLost(r, error) =>
      // the commit takes effect, its acknowledgement is lost, and the pool replaces the connection
      Committed(s, r, Connection(s.connections[ConnOf(s, r)].client, None, None), AfterFailure(s.requests[r], error))
    case Abort(r, error) => WithRunning(WithTxn(s, ConnOf(s, r), None), r, AfterFailure(s.requests[r], error))
    case CannotBegin(r, error) => WithRunning(s, r, AfterFailure(s.requests[r], error))
    case Direct(r, c) => DirectCall(s, r, s.requests[r].request.op, c)
  }

  function DirectCall(s: State, r: nat, op: Op, c: nat): State
    requires r < |s.requests| && c < |s.connections|
  {
    var setting := Setting(s.connections[c]);
    var answer := Observed(s.rows, setting, op);
    var refused := op.Put? && !Admits(setting, op.row);
    var logged := WithRunning(s, r, s.requests[r].(phase := Done(!refused)))
                    .(log := s.log + [Executed(r, c, op, setting, false, answer)]);
    if op.Put? && !refused
    then logged.(rows := Written(s.rows, op), commits := s.commits + [Commit(r, [answer], Written(map[], op))])
    else logged
  }

  // ---- runs ----

  ghost predicate Runs(s: State, steps: seq<Step>, end: State)
    decreases |steps|
  {
    if steps == [] then end == s else Enabled(s, steps[0]) && Runs(Next(s, steps[0]), steps[1..], end)
  }

  /** Pools of idle connections without any setting, no rows, nobody waiting. */
  ghost predicate Initial(s: State) {
    (forall c :: 0 <= c < |s.connections| ==> s.connections[c].session.None? && s.connections[c].txn.None?)
    && s.requests == [] && s.rows == map[] && s.commits == [] && s.log == []
  }

  /** As deployed: the tenant is set for the transaction only. */
  ghost predicate Deployed(s: State) {
    Initial(s) && s.deployment.isLocal
  }

  lemma {:induction false} RunsAppend(s: State, first: seq<Step>, middle: State, second: seq<Step>, end: State)
    requires Runs(s, first, middle) && Runs(middle, second, end)
    ensures Runs(s, first + second, end)
    decreases |first|
  {
    if first == [] {
      assert first + second == second;
    } else {
      RunsAppend(Next(s, first[0]), first[1..], middle, second, end);
      assert (first + second)[1..] == first[1..] + second;
    }
  }

  /** How often a request has committed. */
  function CommitsOf(commits: seq<Commit>, r: nat): nat {
    if commits == [] then 0
    else CommitsOf(commits[..|commits| - 1], r) + if commits[|commits| - 1].request == r then 1 else 0
  }

  lemma CommitsOfAppend(commits: seq<Commit>, commit: Commit, r: nat)
    ensures CommitsOf(commits + [commit], r) == CommitsOf(commits, r) + if commit.request == r then 1 else 0
  {
    assert (commits + [commit])[..|commits|] == commits;
  }
}
