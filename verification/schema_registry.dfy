/** The in-memory schema service: an add-only map from schema identifier to
    schema with insert-if-absent registration. */
module SchemaRegistry {
  import opened Results
  import opened CompactRecords

  datatype Registry = Registry(schemas: map<int, Schema>)

  /** How a registration ends: normally, or with the `IllegalStateException`
      raised for a different schema under an identifier already taken. */
  datatype Outcome =
    | Done
    | SchemaConflict(schemaId: int, existing: Schema, rejected: Schema)

  /** The registry after a registration, and how the registration ended. */
  datatype PutResult = PutResult(registry: Registry, outcome: Outcome)

  /** A registration request, as issued through either entry point. */
  datatype Request = PutRequest(schema: Schema) | PutLocalRequest(schema: Schema)

  /** The service as created: nothing registered. */
  const Empty: Registry := Registry(map[])

  /** Every schema is stored under its own identifier. */
  predicate WellKeyed(reg: Registry) {
    forall id :: id in reg.schemas ==> reg.schemas[id].schemaId == id
  }

  /** `newer` still holds every entry of `older`, unchanged. */
  predicate Extends(older: Registry, newer: Registry) {
    forall id :: id in older.schemas ==> id in newer.schemas && newer.schemas[id] == older.schemas[id]
  }

  /** `get`: the schema registered under `id`, or null (`None`). */
  function Get(reg: Registry, id: int): (found: Option<Schema>)
    ensures found.Some? <==> id in reg.schemas
    ensures found.Some? ==> found.value == reg.schemas[id]
  {
    if id in reg.schemas then Some(reg.schemas[id]) else None
  }

  /** `put`: register `s` under its identifier unless one is already there;
      an equal schema already there is accepted silently, a different one
      raises a conflict and is kept. */
  function Put(reg: Registry, s: Schema): (res: PutResult)
    ensures Extends(reg, res.registry)
    ensures Get(res.registry, s.schemaId).Some?
    ensures s.schemaId !in reg.schemas ==>
              res.outcome == Done && res.registry.schemas == reg.schemas[s.schemaId := s]
    ensures s.schemaId in reg.schemas ==> res.registry == reg
    ensures res.outcome.SchemaConflict? <==> Get(reg, s.schemaId).Some? && Get(reg, s.schemaId).value != s
    ensures res.outcome.SchemaConflict? ==>
              res.outcome == SchemaConflict(s.schemaId, reg.schemas[s.schemaId], s)
    ensures res.outcome == Done <==> Get(res.registry, s.schemaId) == Some(s)
    ensures WellKeyed(reg) ==> WellKeyed(res.registry)
  {
    var id := s.schemaId;
    if id !in reg.schemas then
      PutResult(Registry(reg.schemas[id := s]), Done)
    else if reg.schemas[id] == s then
      PutResult(reg, Done)
    else
      PutResult(reg, SchemaConflict(id, reg.schemas[id], s))
  }

  /** `putLocal`: delegates to `put`, so it has the same effect and the same
      conflict. */
  function PutLocal(reg: Registry, s: Schema): (res: PutResult)
    ensures Extends(reg, res.registry)
    ensures s.schemaId !in reg.schemas ==>
              res.outcome == Done && res.registry.schemas == reg.schemas[s.schemaId := s]
    ensures s.schemaId in reg.schemas ==> res.registry == reg
    ensures Get(res.registry, s.schemaId).Some?
    ensures res.outcome.SchemaConflict? <==> Get(reg, s.schemaId).Some? && Get(reg, s.schemaId).value != s
    ensures res.outcome.SchemaConflict? ==>
              res.outcome == SchemaConflict(s.schemaId, reg.schemas[s.schemaId], s)
    ensures res.outcome == Done <==> Get(res.registry, s.schemaId) == Some(s)
    ensures WellKeyed(reg) ==> WellKeyed(res.registry)
  {
    Put(reg, s)
  }

  /** Serve one request. */
  function Serve(reg: Registry, req: Request): PutResult {
    match req
    case PutRequest(s) => Put(reg, s)
    case PutLocalRequest(s) => PutLocal(reg, s)
  }

  /** The registry after serving `reqs` in order; a request that raises a
      conflict leaves the registry as it was and the next one is served. */
  function Apply(reg: Registry, reqs: seq<Request>): Registry
    decreases |reqs|
  {
    if reqs == [] then reg else Apply(Serve(reg, reqs[0]).registry, reqs[1..])
  }

  /** Registering the same schema twice: the second registration changes
      nothing and ends as the first one did. */
  lemma PutIdempotent(reg: Registry, s: Schema)
    ensures var once := Put(reg, s);
            Put(once.registry, s) == once
  {
  }

  /** After a successful registration, `get` answers the registered schema. */
  lemma GetAfterPut(reg: Registry, s: Schema, id: int)
    requires Put(reg, s).outcome == Done
    ensures Get(Put(reg, s).registry, id) == (if id == s.schemaId then Some(s) else Get(reg, id))
  {
  }

  /** Two different schemas under one identifier: the first registered wins,
      whichever entry point the second arrives through. */
  lemma FirstRegistrationWins(reg: Registry, s1: Schema, s2: Schema)
    requires s1.schemaId !in reg.schemas && s2.schemaId == s1.schemaId && s2 != s1
    ensures var first := Put(reg, s1).registry;
            && Put(first, s2) == PutResult(first, SchemaConflict(s1.schemaId, s1, s2))
            && PutLocal(first, s2) == Put(first, s2)
            && Get(first, s1.schemaId) == Some(s1)
  {
  }

  /** The registry is add-only: whatever is served, every entry present
      before stays present and unchanged. */
  lemma {:induction false} ApplyExtends(reg: Registry, reqs: seq<Request>)
    ensures Extends(reg, Apply(reg, reqs))
    decreases |reqs|
  {
    if reqs != [] {
      var next := Serve(reg, reqs[0]).registry;
      ApplyExtends(next, reqs[1..]);
      assert Extends(reg, next);
    }
  }

  /** Serving requests keeps every schema under its own identifier. */
  lemma {:induction false} ApplyKeepsWellKeyed(reg: Registry, reqs: seq<Request>)
    requires WellKeyed(reg)
    ensures WellKeyed(Apply(reg, reqs))
    decreases |reqs|
  {
    if reqs != [] {
      ApplyKeepsWellKeyed(Serve(reg, reqs[0]).registry, reqs[1..]);
    }
  }

  /** Once `get(id)` answers a schema, it answers the same schema after any
      further registrations. */
  lemma GetIsStable(reg: Registry, reqs: seq<Request>, id: int)
    requires Get(reg, id).Some?
    ensures Get(Apply(reg, reqs), id) == Get(reg, id)
  {
    ApplyExtends(reg, reqs);
  }
}
