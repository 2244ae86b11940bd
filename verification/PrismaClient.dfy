/** Patching the client in place, and which client the hook may open its transactions on. */
module PrismaClient {
  /** What a property of the client object is: a delegate as generated, its wrapped form, or something else. */
  datatype Property = Plain | Wrapped | Other

  /** A client is what its properties are. */
  datatype Client = Client(properties: map<string, Property>)

  /** The client a transaction hands to its callback derives from the one it was opened on, patches included. */
  function TransactionClient(opener: Client): Client { Client(opener.properties) }

  /** A client as generated: one plain delegate a model. */
  function Generated(models: set<string>): Client { Client(map m | m in models :: Plain) }

  /** A `$`-name is the client's own method, never a model delegate. */
  predicate IsClientMethod(key: string) {
    key != "" && key[0] == '$'
  }

  predicate Replaced(key: string, extended: map<string, Property>) {
    !IsClientMethod(key) && key != "rawTxClient" && key in extended
  }

  /** `$extends`: the hook goes around every model delegate. */
  function Extend(own: map<string, Property>): map<string, Property> {
    map key | key in own :: if own[key].Plain? then Wrapped else own[key]
  }

  /** The properties once each delegate has been overwritten with the extension's. */
  function Patched(own: map<string, Property>, extended: map<string, Property>): map<string, Property> {
    map key | key in own :: if Replaced(key, extended) then extended[key] else own[key]
  }

  class PrismaService {
    var properties: map<string, Property>

    /** The end of the constructor: overwrite each delegate with the extension's, key by key. */
    constructor (own: map<string, Property>, keys: seq<string>, extended: map<string, Property>)
      requires forall key :: key in keys <==> key in own
      ensures properties == Patched(own, extended)
    {
      properties := own;
      new;
      for i := 0 to |keys|
        invariant properties.Keys == own.Keys
        invariant forall key :: key in own ==>
          properties[key] == if key in keys[..i] && Replaced(key, extended) then extended[key] else own[key]
      {
        if !IsClientMethod(keys[i]) && keys[i] != "rawTxClient" && keys[i] in extended {
          properties := properties[keys[i] := extended[keys[i]]];
        }
        assert keys[..i + 1] == keys[..i] + [keys[i]];
      }
    }
  }

  /** After the constructor no delegate is left unwrapped, whatever else the object holds. */
  lemma NoPlainDelegateIsLeft(own: map<string, Property>)
    requires forall key :: key in own && own[key].Plain? ==> !IsClientMethod(key) && key != "rawTxClient"
    ensures forall key :: key in own ==> !Patched(own, Extend(own))[key].Plain?
    ensures forall key :: key in own ==> (Patched(own, Extend(own))[key].Wrapped? <==> !own[key].Other?)
  {
  }

  // ---- one model call ----

  datatype Outcome = Ran(levels: nat) | PoolExhausted | NoDelegate

  /**
   A call of `model` on `client` for a tenant, with `available` connections left to `opener`. A
   plain delegate runs; a wrapped one opens a transaction on `opener` and makes the same call on
   that transaction's client, keeping its connection meanwhile.
   */
  function Call(client: Client, opener: Client, model: string, available: nat): Outcome
    decreases available
  {
    if model !in client.properties || client.properties[model].Other? then NoDelegate
    else if client.properties[model].Plain? then Ran(0)
    else if available == 0 then PoolExhausted
    else
      var inner := Call(TransactionClient(opener), opener, model, available - 1);
      if inner.Ran? then Ran(inner.levels + 1) else inner
  }

  predicate HasPlain(client: Client, model: string) {
    model in client.properties && client.properties[model].Plain?
  }

  predicate HasWrapped(client: Client, model: string) {
    model in client.properties && client.properties[model].Wrapped?
  }

  /** Opened on a client whose own delegate is wrapped, the calls nest until no connection is left. */
  lemma {:induction false} WrappedOpenerExhaustsAnyPool(client: Client, opener: Client, model: string, available: nat)
    requires HasWrapped(client, model) && HasWrapped(opener, model)
    ensures Call(client, opener, model, available) == PoolExhausted
    decreases available
  {
    if available > 0 {
      WrappedOpenerExhaustsAnyPool(TransactionClient(opener), opener, model, available - 1);
    }
  }

  /**
   A call on a delegate that the constructor replaced opens exactly one transaction level, on any
   pool, if and only if the delegate of the client that the hook opens on is plain.
   */
  lemma ExactlyOneLevelIffPlain(own: map<string, Property>, extended: map<string, Property>, opener: Client, model: string, available: nat)
    requires model in own && Replaced(model, extended) && extended[model].Wrapped?
    requires available >= 1
    ensures Call(Client(Patched(own, extended)), opener, model, available) == Ran(1) <==> HasPlain(opener, model)
    ensures Call(Client(Patched(own, extended)), opener, model, available) == PoolExhausted <==> HasWrapped(opener, model)
  {
    if HasWrapped(opener, model) {
      WrappedOpenerExhaustsAnyPool(Client(Patched(own, extended)), opener, model, available);
    }
  }

  /** The two openers the repository has tried: the patched client itself, and a separate client as generated. */
  lemma PatchedOpenerRecursesRawOneDoesNot(own: map<string, Property>, models: set<string>, model: string, available: nat)
    requires forall key :: key in own && own[key].Plain? ==> !IsClientMethod(key) && key != "rawTxClient"
    requires HasPlain(Client(own), model) && model in models && available >= 1
    ensures var self := Client(Patched(own, Extend(own)));
            Call(self, self, model, available) == PoolExhausted
            && Call(self, Generated(models), model, available) == Ran(1)
  {
    var self := Client(Patched(own, Extend(own)));
    WrappedOpenerExhaustsAnyPool(self, self, model, available);
    ExactlyOneLevelIffPlain(own, Extend(own), Generated(models), model, available);
  }
}
