/** Which database errors are worth a retry, decided on an arbitrary thrown value. */
module PrismaErrors {
  import opened Basics

  /** A thrown value of unknown shape; a field that is absent reads as `Undefined`. */
  datatype Js = Undefined | Null | Num(n: int) | Str(s: string) | Object(fields: map<string, Js>)

  function Field(v: Js, key: string): Js {
    if v.Object? && key in v.fields then v.fields[key] else Undefined
  }

  const RETRYABLE_SQLSTATES := {"40001", "40P01", "57P01"}
  const RETRYABLE_CAUSE_KINDS := {"DatabaseNotReachable"}
  const STATEMENT_TIMEOUT := "57014"

  function ExtractDriverAdapterErrorCause(error: Js): (cause: Option<Js>)
    ensures cause.Some? ==> cause.value.Object?
  {
    if !error.Object? then None
    else if Field(error, "name") == Str("DriverAdapterError") && Field(error, "cause").Object? then Some(Field(error, "cause"))
    else if Field(error, "code") == Str("P2010") && Field(error, "meta").Object?
            && Field(Field(error, "meta"), "driverAdapterError").Object?
            && Field(Field(Field(error, "meta"), "driverAdapterError"), "cause").Object?
    then Some(Field(Field(Field(error, "meta"), "driverAdapterError"), "cause"))
    else None
  }

  predicate HasRawErrorCode(error: Js, codes: set<string>) {
    error.Object? && "code" in error.fields && error.fields["code"].Str? && error.fields["code"].s in codes
  }

  predicate RetryableCause(cause: Js) {
    (Field(cause, "code").Str? && Field(cause, "code").s in RETRYABLE_SQLSTATES)
    || (Field(cause, "kind").Str? && Field(cause, "kind").s in RETRYABLE_CAUSE_KINDS)
  }

  predicate IsRetryableTransactionError(error: Js) {
    var cause := ExtractDriverAdapterErrorCause(error);
    if cause.Some? then RetryableCause(cause.value)
    else HasRawErrorCode(error, RETRYABLE_SQLSTATES + {"ECONNRESET"})
  }

  predicate IsStatementTimeoutError(error: Js) {
    var cause := ExtractDriverAdapterErrorCause(error);
    if cause.Some? then Field(cause.value, "code") == Str(STATEMENT_TIMEOUT)
    else HasRawErrorCode(error, {STATEMENT_TIMEOUT})
  }

  /** Prisma's own codes for broken constraints and for a transaction that could not start. */
  const OWN_CODES := {"P2002", "P2003", "P2004", "P2028"}

  /**
   An error carrying one of Prisma's own codes is retried only when it is also a driver adapter
   error whose nested cause says so; the code itself never makes it retryable, and on an error of
   the class that carries such codes nothing does.
   */
  lemma OwnCodesRetriedIff(error: Js)
    requires HasRawErrorCode(error, OWN_CODES)
    ensures IsRetryableTransactionError(error)
       <==> Field(error, "name") == Str("DriverAdapterError") && Field(error, "cause").Object?
            && RetryableCause(Field(error, "cause"))
    ensures Field(error, "name") == Str("PrismaClientKnownRequestError") ==> !IsRetryableTransactionError(error)
  {
  }

  /** The same driver cause is judged the same whether it arrives bare or wrapped in a failed raw query. */
  lemma WrappingDoesNotMatter(bare: Js, wrapped: Js)
    requires Field(bare, "name") == Str("DriverAdapterError") && Field(bare, "cause").Object?
    requires Field(wrapped, "name") != Str("DriverAdapterError") && Field(wrapped, "code") == Str("P2010")
    requires Field(Field(Field(wrapped, "meta"), "driverAdapterError"), "cause") == Field(bare, "cause")
    ensures IsRetryableTransactionError(bare) == IsRetryableTransactionError(wrapped)
    ensures IsStatementTimeoutError(bare) == IsStatementTimeoutError(wrapped)
  {
    assert Field(wrapped, "meta").Object?;
  }

  // ---- by SQLSTATE ----

  /** An error that carries its code itself. */
  function Raw(code: string): Js {
    Object(map["code" := Str(code)])
  }

  /** An error of the driver adapter with this code in its cause. */
  function Adapted(code: string): Js {
    Object(map["name" := Str("DriverAdapterError"), "cause" := Raw(code)])
  }

  lemma RawIsBare(code: string)
    ensures Field(Raw(code), "code") == Str(code) && ExtractDriverAdapterErrorCause(Raw(code)).None?
    ensures Field(Raw(code), "kind") == Undefined
  {
    assert Field(Raw(code), "name") == Undefined && Field(Raw(code), "meta") == Undefined;
  }

  lemma AdaptedHasCause(code: string)
    ensures ExtractDriverAdapterErrorCause(Adapted(code)) == Some(Raw(code))
  {
    assert Field(Adapted(code), "name") == Str("DriverAdapterError") && Field(Adapted(code), "cause") == Raw(code);
  }

  /**
   By code alone: serialization failures, deadlocks and terminated connections are transient, bare or
   from the adapter, and a reset connection is when it arrives bare; 57014 and nothing else is a statement
   timeout, and never transient.
   */
  lemma CodesRetriedIff(code: string)
    ensures IsRetryableTransactionError(Adapted(code)) <==> code == "40001" || code == "40P01" || code == "57P01"
    ensures IsRetryableTransactionError(Raw(code))
       <==> code == "40001" || code == "40P01" || code == "57P01" || code == "ECONNRESET"
    ensures IsStatementTimeoutError(Adapted(code)) <==> code == "57014"
    ensures IsStatementTimeoutError(Raw(code)) <==> code == "57014"
    ensures code == "57014" ==> !IsRetryableTransactionError(Adapted(code)) && !IsRetryableTransactionError(Raw(code))
  {
    RawIsBare(code);
    AdaptedHasCause(code);
  }

  /** A server that was never reached has no code: the kind of the cause makes it transient. */
  lemma UnreachableIsRetried()
    ensures var error := Object(map["name" := Str("DriverAdapterError"),
                                    "cause" := Object(map["kind" := Str("DatabaseNotReachable")])]);
            IsRetryableTransactionError(error) && !IsStatementTimeoutError(error)
  {
    var cause := Object(map["kind" := Str("DatabaseNotReachable")]);
    var error := Object(map["name" := Str("DriverAdapterError"), "cause" := cause]);
    assert Field(error, "name") == Str("DriverAdapterError") && Field(error, "cause") == cause;
    assert ExtractDriverAdapterErrorCause(error) == Some(cause);
    assert Field(cause, "code") == Undefined && Field(cause, "kind") == Str("DatabaseNotReachable");
  }
}
