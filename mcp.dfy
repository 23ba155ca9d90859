/**
 * The Model Context Protocol client's local mode (knowledge/mcp_client.py):
 * a registry of named contexts, each with a parameter schema and an
 * optional handler, and the lookups and queries routed to it.
 *
 * Handlers are named by an identifier and run by an oracle; a remote
 * client's answers come from the server and are only marked as such.
 */
module Mcp {
  import opened Wrappers
  import opened Values

  /** The identity of a registered callable. */
  type HandlerId = string

  /** What a handler does with a query: returns a value or raises with a message. */
  datatype Reply = Returned(value: Json) | Raised(message: string)

  /** The registry entry `{"name": ..., "schema": ..., "handler": ...}`; `None` is a missing or non-callable handler. */
  datatype Entry = Entry(name: string, schema: Json, handler: Option<HandlerId>)

  /** An answer computed locally, or one the remote server gives. */
  datatype Routed<T> = Local(value: T) | Server

  /** The registry: names and entries in insertion order, as the Python dict keeps them. */
  type Registry = seq<(string, Entry)>

  predicate Named(contexts: Registry, name: string) {
    exists i :: 0 <= i < |contexts| && contexts[i].0 == name
  }

  /** Keys are distinct and each entry is stored under its own name. */
  predicate WellFormed(contexts: Registry) {
    && (forall i, j :: 0 <= i < j < |contexts| ==> contexts[i].0 != contexts[j].0)
    && (forall i :: 0 <= i < |contexts| ==> contexts[i].1.name == contexts[i].0)
  }

  /** `contexts.get(name)`. */
  function Lookup(contexts: Registry, name: string): (r: Option<Entry>)
    ensures r.Some? <==> Named(contexts, name)
    ensures r.Some? ==> exists i :: 0 <= i < |contexts| && contexts[i] == (name, r.value)
  {
    if contexts == [] then None
    else if contexts[0].0 == name then Some(contexts[0].1)
    else Lookup(contexts[1..], name)
  }

  /** `contexts[name] = entry`: in place when the name is present, appended otherwise. */
  function Assign(contexts: Registry, name: string, entry: Entry): (r: Registry)
    ensures |r| == if Named(contexts, name) then |contexts| else |contexts| + 1
    ensures forall i :: 0 <= i < |contexts| ==> r[i].0 == contexts[i].0
    ensures !Named(contexts, name) ==> r[|contexts|] == (name, entry)
  {
    if contexts == [] then [(name, entry)]
    else if contexts[0].0 == name then [(name, entry)] + contexts[1..]
    else [contexts[0]] + Assign(contexts[1..], name, entry)
  }

  /** After an assignment the name holds the new entry and every other name keeps its own. */
  lemma {:induction false} AssignLookup(contexts: Registry, name: string, entry: Entry, other: string)
    ensures Lookup(Assign(contexts, name, entry), other) == if other == name then Some(entry) else Lookup(contexts, other)
  {
    if contexts != [] && contexts[0].0 != name {
      AssignLookup(contexts[1..], name, entry, other);
    }
  }

  /** Registering an entry under its own name keeps the registry well formed. */
  lemma AssignWellFormed(contexts: Registry, name: string, entry: Entry)
    requires WellFormed(contexts) && entry.name == name
    ensures WellFormed(Assign(contexts, name, entry))
  {
    var r := Assign(contexts, name, entry);
    AssignEntries(contexts, name, entry);
    forall i, j | 0 <= i < j < |r| ensures r[i].0 != r[j].0 {
      if j == |contexts| {
        assert r[j].0 == name && !Named(contexts, name);
        assert r[i].0 == contexts[i].0;
      }
    }
  }

  /** Each position keeps its entry, except the one that held the name, which gets the new entry. */
  lemma {:induction false} AssignEntries(contexts: Registry, name: string, entry: Entry)
    requires WellFormed(contexts)
    ensures var r := Assign(contexts, name, entry);
      forall i :: 0 <= i < |contexts| ==>
        r[i].1 == (if contexts[i].0 == name then entry else contexts[i].1)
  {
    if contexts != [] && contexts[0].0 != name {
      TailWellFormed(contexts);
      AssignEntries(contexts[1..], name, entry);
      var r := Assign(contexts, name, entry);
      assert r == [contexts[0]] + Assign(contexts[1..], name, entry);
    }
  }

  /** `{"error": message}`. */
  function ErrorRecord(message: string): Json {
    JObj([("error", JStr(message))])
  }

  /** The entries in registration order: `list(contexts.values())`. */
  function Entries(contexts: Registry): (r: seq<Entry>)
    ensures |r| == |contexts|
    ensures forall i :: 0 <= i < |contexts| ==> r[i] == contexts[i].1
  {
    if contexts == [] then [] else [contexts[0].1] + Entries(contexts[1..])
  }

  class McpClient {
    var baseUrl: Option<string>
    var isRemote: bool
    var contexts: Registry

    ghost predicate Valid()
      reads this
    {
      WellFormed(contexts)
    }

    /** A client without a base URL is local. */
    constructor (url: Option<string>)
      ensures Valid()
      ensures baseUrl == url && isRemote == url.Some? && contexts == []
    {
      baseUrl := url;
      isRemote := url.Some?;
      contexts := [];
    }

    /** `register_context`: the name now maps to its entry; other names are untouched. */
    method RegisterContext(name: string, schema: Json, handler: Option<HandlerId>)
      requires Valid()
      modifies this`contexts
      ensures Valid()
      ensures contexts == Assign(old(contexts), name, Entry(name, schema, handler))
      ensures GetContextSchema(name) == Local(Some(Entry(name, schema, handler)))
      ensures forall other :: other != name ==> Lookup(contexts, other) == Lookup(old(contexts), other)
    {
      AssignWellFormed(contexts, name, Entry(name, schema, handler));
      AssignLookup(contexts, name, Entry(name, schema, handler), name);
      forall other | other != name
        ensures Lookup(Assign(contexts, name, Entry(name, schema, handler)), other) == Lookup(contexts, other)
      {
        AssignLookup(contexts, name, Entry(name, schema, handler), other);
      }
      contexts := Assign(contexts, name, Entry(name, schema, handler));
    }

    /** `list_contexts`: locally, the registered entries in registration order. */
    function ListContexts(): (r: Routed<seq<Entry>>)
      reads this
      ensures isRemote <==> r.Server?
      ensures r.Local? ==> r.value == Entries(contexts)
    {
      if isRemote then Server else Local(Entries(contexts))
    }

    /**
     * `get_context_schema`: a registered name answers from the registry even
     * for a remote client; otherwise a local client answers `{}` (`None` here).
     */
    function GetContextSchema(name: string): (r: Routed<Option<Entry>>)
      reads this
      ensures Named(contexts, name) ==> r == Local(Lookup(contexts, name))
      ensures !Named(contexts, name) ==> (r == Server <==> isRemote) && (r.Local? ==> r.value == None)
    {
      if Named(contexts, name) then Local(Lookup(contexts, name))
      else if isRemote then Server
      else Local(None)
    }

    /**
     * `query_context`: locally, the handler's answer, or `{"error": message}`
     * when it raises or when the name has no callable handler.
     */
    function QueryContext(name: string, parameters: Json, maxResults: int,
                          run: (HandlerId, Json, int) -> Reply): (r: Routed<Json>)
      reads this
      ensures isRemote <==> r.Server?
      ensures !isRemote ==> r == Local(LocalQuery(Lookup(contexts, name), name, parameters, maxResults, run))
    {
      if isRemote then Server else Local(LocalQuery(Lookup(contexts, name), name, parameters, maxResults, run))
    }
  }

  /** The local handler call. */
  function LocalQuery(entry: Option<Entry>, name: string, parameters: Json, maxResults: int,
                      run: (HandlerId, Json, int) -> Reply): (r: Json)
    ensures (entry.None? || entry.value.handler.None?) ==>
      r == ErrorRecord("No handler registered for context: " + name)
    ensures entry.Some? && entry.value.handler.Some? ==>
      match run(entry.value.handler.value, parameters, maxResults)
      case Returned(v) => r == v
      case Raised(m) => r == ErrorRecord(m)
  {
    if entry.Some? && entry.value.handler.Some? then
      match run(entry.value.handler.value, parameters, maxResults)
      case Returned(v) => v
      case Raised(m) => ErrorRecord(m)
    else ErrorRecord("No handler registered for context: " + name)
  }

  /** A well-formed registry lists one entry per name, each under its own name. */
  lemma ListedOncePerName(contexts: Registry)
    requires WellFormed(contexts)
    ensures var es := Entries(contexts);
      && (forall i, j :: 0 <= i < j < |es| ==> es[i].name != es[j].name)
      && (forall i :: 0 <= i < |es| ==> Lookup(contexts, es[i].name) == Some(es[i]))
  {
    var es := Entries(contexts);
    forall i | 0 <= i < |es| ensures Lookup(contexts, es[i].name) == Some(es[i]) {
      LookupAt(contexts, i);
    }
  }

  lemma LookupAt(contexts: Registry, i: int)
    requires WellFormed(contexts) && 0 <= i < |contexts|
    ensures Lookup(contexts, contexts[i].0) == Some(contexts[i].1)
  {
    if i > 0 {
      assert contexts[0].0 != contexts[i].0;
      TailWellFormed(contexts);
      LookupAt(contexts[1..], i - 1);
    }
  }

  lemma TailWellFormed(contexts: Registry)
    requires WellFormed(contexts) && contexts != []
    ensures WellFormed(contexts[1..])
  {
    assert forall k :: 0 <= k < |contexts| - 1 ==> contexts[1..][k] == contexts[k + 1];
  }

  /** An unregistered name queried locally reports the missing handler, never raising. */
  lemma UnknownContextQuery(name: string, parameters: Json, maxResults: int, run: (HandlerId, Json, int) -> Reply)
    ensures LocalQuery(None, name, parameters, maxResults, run)
      == JObj([("error", JStr("No handler registered for context: " + name))])
  {
  }
}
