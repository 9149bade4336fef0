// The schemas table of the trust registry and the routes that change it.
module SchemaRegistry {
  import opened SchemaIds
  import opened Text
  import opened Wrappers

  datatype Row = Row(did: string, name: string, version: string)

  // The id is the primary key.
  type Table = map<string, Row>

  datatype RouteError =
    | AlreadyExists                     // 409
    | SameId                            // 400
    | NotFound                          // 404, or 405 on update
    | Violation                         // the new id of an update is taken
    | BadIdParts                        // the id has fewer than four parts
    | Unresolved                        // the cheqd resolver failed
    | Rejected(reason: SchemaError)

  // What the resolver says about a cheqd schema.
  datatype Resolution = Resolution(did: Option<string>, name: Option<string>, version: Option<string>)

  function Fields(did: Option<string>, name: Option<string>, version: Option<string>, id: string): Values {
    map["did" := did, "name" := name, "version" := version, "id" := Some(id)]
  }

  // The schema a route builds from an id; `None` stands for a failed resolver call.
  function Parse(id: string, resolved: Option<Resolution>): Result<Schema, RouteError> {
    if IsCheqd(id) then
      if resolved.None? then Err(Unresolved)
      else
        match Validate(Fields(resolved.value.did, resolved.value.name, resolved.value.version, id))
        case Ok(s) => Ok(s)
        case Err(e) => Err(Rejected(e))
    else
      var parts := SplitMax(id, ':', 3);
      if |parts| < 4 then Err(BadIdParts)
      else
        match Validate(Fields(Some(parts[0]), Some(parts[2]), Some(parts[3]), id))
        case Ok(s) => Ok(s)
        case Err(e) => Err(Rejected(e))
  }

  function RowOf(s: Schema): Row { Row(s.did, s.name, s.version) }

  function SchemaOf(id: string, row: Row): Schema { Schema(row.did, row.name, row.version, id) }

  function Register(t: Table, id: string, resolved: Option<Resolution>): Result<Table, RouteError> {
    match Parse(id, resolved)
    case Err(e) => Err(e)
    case Ok(s) => if s.id in t then Err(AlreadyExists) else Ok(t[s.id := RowOf(s)])
  }

  // On update a cheqd id has no parts, and the database computes the new key from the other columns.
  function Update(t: Table, id: string, newId: string): Result<Table, RouteError> {
    if id == newId then Err(SameId)
    else if IsCheqd(newId) then Err(BadIdParts)
    else match Parse(newId, None)
      case Err(e) => Err(e)
      case Ok(s) =>
        var key := CalcSchemaId(s.did, s.name, s.version);
        if id !in t then Err(NotFound)
        else if key != id && key in t then Err(Violation)
        else Ok((t - {id})[key := RowOf(s)])
  }

  function Remove(t: Table, id: string): Result<Table, RouteError> {
    if id in t then Ok(t - {id}) else Err(NotFound)
  }

  datatype Op =
    | RegisterOp(id: string, resolved: Option<Resolution>)
    | UpdateOp(id: string, newId: string)
    | RemoveOp(id: string)

  function Apply(t: Table, op: Op): Result<Table, RouteError> {
    match op
    case RegisterOp(id, resolved) => Register(t, id, resolved)
    case UpdateOp(id, newId) => Update(t, id, newId)
    case RemoveOp(id) => Remove(t, id)
  }

  function Run(t: Table, ops: seq<Op>): Table {
    if ops == [] then t
    else
      var before := Run(t, ops[..|ops| - 1]);
      match Apply(before, ops[|ops| - 1]) case Ok(after) => after case Err(_) => before
  }

  ghost predicate RowsConsistent(t: Table) {
    forall id | id in t :: Consistent(SchemaOf(id, t[id]))
  }

  // Whatever a route parses is consistent and has the id that was asked for.
  lemma ParsedIsConsistent(id: string, resolved: Option<Resolution>)
    requires Parse(id, resolved).Ok?
    ensures Parse(id, resolved).value.id == id && Consistent(Parse(id, resolved).value)
  {
    if !IsCheqd(id) {
      var parts := SplitMax(id, ':', 3);
      FieldsPresent(Fields(Some(parts[0]), Some(parts[2]), Some(parts[3]), id));
    }
  }

  // A non-cheqd id parses exactly if it is the printed form of three colon-free parts.
  lemma ParsesExactly(id: string, resolved: Option<Resolution>)
    requires !IsCheqd(id)
    ensures Parse(id, resolved).Ok? <==> |Split(id, ':')| == 4 && Split(id, ':')[1] == "2"
  {
    var parts := SplitMax(id, ':', 3);
    if Parse(id, resolved).Ok? {
      ParsedIsConsistent(id, resolved);
      var s := Parse(id, resolved).value;
      SplitCalc(s.did, s.name, s.version);
    }
    if |Split(id, ':')| == 4 && Split(id, ':')[1] == "2" {
      SplitMaxOfFew(id, ':', 3);
      CalcSplit(id);
      FieldsPresent(Fields(Some(parts[0]), Some(parts[2]), Some(parts[3]), id));
    }
  }

  // In every reachable table each row is consistent with its key.
  lemma {:induction false} RowsAreConsistent(ops: seq<Op>)
    ensures RowsConsistent(Run(map[], ops))
  {
    if ops != [] {
      var op := ops[|ops| - 1];
      RowsAreConsistent(ops[..|ops| - 1]);
      if op.RegisterOp? && Parse(op.id, op.resolved).Ok? {
        ParsedIsConsistent(op.id, op.resolved);
      } else if op.UpdateOp? && Parse(op.newId, None).Ok? {
        ParsedIsConsistent(op.newId, None);
      }
    }
  }

  // Validating it again, as listing the schemas does, therefore gives it back.
  lemma StoredRowsRevalidate(ops: seq<Op>)
    ensures RowsConsistent(Run(map[], ops))
    ensures forall id | id in Run(map[], ops) ::
              var s := SchemaOf(id, Run(map[], ops)[id]); Validate(AsValues(s)) == Ok(s)
  {
    var t := Run(map[], ops);
    RowsAreConsistent(ops);
    forall id | id in t ensures Validate(AsValues(SchemaOf(id, t[id]))) == Ok(SchemaOf(id, t[id])) {
      RevalidateExactly(SchemaOf(id, t[id]));
    }
  }

  // An update succeeds exactly if the row exists, the requested id is new, printed from colon-free parts
  // and free; it then moves that one row to the requested id and touches no other.
  lemma UpdateMovesOneRow(t: Table, id: string, newId: string)
    ensures Update(t, id, newId).Ok? <==>
            && id in t && newId !in t && !IsCheqd(newId)
            && |Split(newId, ':')| == 4 && Split(newId, ':')[1] == "2"
    ensures Update(t, id, newId).Ok? ==>
              var u := Update(t, id, newId).value;
              && id !in u && newId in u
              && u - {newId} == t - {id}
              && newId == CalcSchemaId(u[newId].did, u[newId].name, u[newId].version)
  {
    if !IsCheqd(newId) {
      ParsesExactly(newId, None);
      if Parse(newId, None).Ok? {
        ParsedIsConsistent(newId, None);
      }
    }
  }

  // Registering a non-cheqd schema succeeds exactly for a well-formed id that is free, and adds that row.
  lemma RegisterExactly(t: Table, id: string, resolved: Option<Resolution>)
    requires !IsCheqd(id)
    ensures Register(t, id, resolved).Ok? <==>
            id !in t && |Split(id, ':')| == 4 && Split(id, ':')[1] == "2"
    ensures Register(t, id, resolved).Ok? ==>
              var parts := Split(id, ':');
              Register(t, id, resolved).value == t[id := Row(parts[0], parts[2], parts[3])]
  {
    ParsesExactly(id, resolved);
    if Parse(id, resolved).Ok? {
      ParsedIsConsistent(id, resolved);
      var s := Parse(id, resolved).value;
      SplitCalc(s.did, s.name, s.version);
    }
  }

  predicate WellFormed(id: string) {
    |Split(id, ':')| == 4 && Split(id, ':')[1] == "2"
  }

  // How registering a cheqd schema turns out: the resolver must answer with a name and a version, and the
  // id must be free. The row has what the resolver answered, under the DID before the first slash.
  lemma RegisterCheqdExactly(t: Table, id: string, resolved: Option<Resolution>)
    requires "did:cheqd:" <= id
    ensures Register(t, id, resolved) ==
            if resolved.None? then Err(Unresolved)
            else if resolved.value.name.None? || resolved.value.version.None? then Err(Rejected(FieldsRequired))
            else if id in t then Err(AlreadyExists)
            else Ok(t[id := Row(Split(id, '/')[0], resolved.value.name.value, resolved.value.version.value)])
  {
    if resolved.Some? {
      CheqdExactly(Fields(resolved.value.did, resolved.value.name, resolved.value.version, id));
    }
  }

  // A limit on the number of splits shows only in ids with more parts.
  lemma {:induction false} FewParts(s: string, sep: char, limit: nat)
    ensures |SplitMax(s, sep, limit)| == if |Split(s, sep)| <= limit + 1 then |Split(s, sep)| else limit + 1
    decreases |s|
  {
    if s != "" && limit > 0 {
      FewParts(s[1..], sep, if s[0] == sep then limit - 1 else limit);
    }
  }

  // How a non-cheqd id fails to parse: with fewer than four parts, or else in the validator.
  lemma ParseErrors(id: string, resolved: Option<Resolution>)
    requires !IsCheqd(id) && !WellFormed(id)
    ensures Parse(id, resolved).Err?
    ensures |Split(id, ':')| < 4 ==> Parse(id, resolved) == Err(BadIdParts)
    ensures |Split(id, ':')| >= 4 ==> Parse(id, resolved).error.Rejected?
  {
    ParsesExactly(id, resolved);
    FewParts(id, ':', 3);
  }

  // How registering another schema, and how an update, is refused.
  lemma RegisterErrors(t: Table, id: string, resolved: Option<Resolution>)
    requires !IsCheqd(id)
    ensures |Split(id, ':')| < 4 ==> Register(t, id, resolved) == Err(BadIdParts)
    ensures |Split(id, ':')| >= 4 && !WellFormed(id) ==> Register(t, id, resolved).Err? && Register(t, id, resolved).error.Rejected?
    ensures WellFormed(id) && id in t ==> Register(t, id, resolved) == Err(AlreadyExists)
  {
    ParsesExactly(id, resolved);
    if WellFormed(id) {
      ParsedIsConsistent(id, resolved);
    } else {
      ParseErrors(id, resolved);
    }
  }

  lemma UpdateErrors(t: Table, id: string, newId: string)
    ensures id == newId ==> Update(t, id, newId) == Err(SameId)
    ensures id != newId && (IsCheqd(newId) || |Split(newId, ':')| < 4) ==> Update(t, id, newId) == Err(BadIdParts)
    ensures id != newId && !IsCheqd(newId) && |Split(newId, ':')| >= 4 && !WellFormed(newId) ==>
              Update(t, id, newId).Err? && Update(t, id, newId).error.Rejected?
    ensures id != newId && !IsCheqd(newId) && WellFormed(newId) && id !in t ==> Update(t, id, newId) == Err(NotFound)
    ensures id in t && id != newId && !IsCheqd(newId) && WellFormed(newId) && newId in t ==>
              Update(t, id, newId) == Err(Violation)
  {
    if !IsCheqd(newId) {
      ParsesExactly(newId, None);
      if WellFormed(newId) {
        ParsedIsConsistent(newId, None);
      } else {
        ParseErrors(newId, None);
      }
    }
  }

  lemma RunSnoc(ops: seq<Op>, op: Op)
    ensures Run(map[], ops + [op]) ==
            match Apply(Run(map[], ops), op) case Ok(after) => after case Err(_) => Run(map[], ops)
  {
    assert (ops + [op])[..|ops|] == ops;
  }

  // The routes over the table. A rejected request is rolled back.
  class SchemaRoutes {
    var rows: Table
    ghost var history: seq<Op>  // the requests so far, rejected ones included

    ghost predicate Valid()
      reads this
    {
      rows == Run(map[], history)
    }

    constructor ()
      ensures Valid() && rows == map[] && history == []
    {
      rows, history := map[], [];
    }

    // A cheqd schema takes its name and version from the resolver, any other its fields from the id.
    method RegisterSchema(id: string, resolved: Option<Resolution>) returns (r: Result<Schema, RouteError>)
      requires Valid()
      modifies this
      ensures Valid() && history == old(history) + [RegisterOp(id, resolved)]
      ensures IsCheqd(id) ==>
                && (r.Ok? <==> resolved.Some? && resolved.value.name.Some? && resolved.value.version.Some? && id !in old(rows))
                && (r.Ok? ==> rows == old(rows)[id := Row(Split(id, '/')[0], resolved.value.name.value, resolved.value.version.value)])
      ensures !IsCheqd(id) ==>
                var parts := Split(id, ':');
                && (r.Ok? <==> |parts| == 4 && parts[1] == "2" && id !in old(rows))
                && (r.Ok? ==> rows == old(rows)[id := Row(parts[0], parts[2], parts[3])])
      ensures match Register(old(rows), id, resolved)
              case Ok(t) => rows == t && r.Ok? && r.value.id == id && id in rows && rows[id] == RowOf(r.value)
              case Err(e) => rows == old(rows) && r == Err(e)
    {
      RunSnoc(history, RegisterOp(id, resolved));
      history := history + [RegisterOp(id, resolved)];
      if IsCheqd(id) {
        RegisterCheqdExactly(rows, id, resolved);
      } else {
        RegisterExactly(rows, id, resolved);
      }
      var did, name, version: Option<string> := None, None, None;
      if !IsCheqd(id) {
        var attrs := SplitMax(id, ':', 3);
        if |attrs| < 4 {
          return Err(BadIdParts);
        }
        did, name, version := Some(attrs[0]), Some(attrs[2]), Some(attrs[3]);
      } else {
        if resolved.None? {
          return Err(Unresolved);
        }
        did, name, version := resolved.value.did, resolved.value.name, resolved.value.version;
      }
      var schema := Validate(Fields(did, name, version, id));
      if schema.Err? {
        return Err(Rejected(schema.error));
      }
      ParsedIsConsistent(id, resolved);
      if schema.value.id in rows {
        return Err(AlreadyExists);
      }
      rows := rows[schema.value.id := RowOf(schema.value)];
      return Ok(schema.value);
    }

    method UpdateSchema(id: string, newId: string) returns (r: Result<Schema, RouteError>)
      requires Valid()
      modifies this
      ensures Valid() && history == old(history) + [UpdateOp(id, newId)]
      ensures match Update(old(rows), id, newId)
              case Ok(t) => rows == t && r.Ok? && r.value.id == newId && newId in rows && rows[newId] == RowOf(r.value)
              case Err(e) => rows == old(rows) && r == Err(e)
    {
      RunSnoc(history, UpdateOp(id, newId));
      history := history + [UpdateOp(id, newId)];
      if id == newId {
        return Err(SameId);
      }
      if IsCheqd(newId) {
        return Err(BadIdParts);
      }
      var attrs := SplitMax(newId, ':', 3);
      if |attrs| < 4 {
        return Err(BadIdParts);
      }
      var schema := Validate(Fields(Some(attrs[0]), Some(attrs[2]), Some(attrs[3]), newId));
      if schema.Err? {
        return Err(Rejected(schema.error));
      }
      ParsedIsConsistent(newId, None);
      if id !in rows {
        return Err(NotFound);
      }
      var s := schema.value;
      var key := CalcSchemaId(s.did, s.name, s.version);
      if key != id && key in rows {
        return Err(Violation);
      }
      rows := (rows - {id})[key := RowOf(s)];
      return Ok(s);
    }

    method RemoveSchema(id: string) returns (r: Result<Row, RouteError>)
      requires Valid()
      modifies this
      ensures Valid() && history == old(history) + [RemoveOp(id)]
      ensures r == if id in old(rows) then Ok(old(rows)[id]) else Err(NotFound)
      ensures rows == old(rows) - {id}
    {
      RunSnoc(history, RemoveOp(id));
      history := history + [RemoveOp(id)];
      if id !in rows {
        assert rows - {id} == rows;
        return Err(NotFound);
      }
      r := Ok(rows[id]);
      rows := rows - {id};
    }

    // Every selected row is validated again; in a consistent table all come back as they are stored.
    method GetSchemas(ids: seq<string>) returns (r: Result<seq<Schema>, SchemaError>)
      requires forall i | 0 <= i < |ids| :: ids[i] in rows
      ensures r.Err? ==> exists i | 0 <= i < |ids| :: Validate(AsValues(SchemaOf(ids[i], rows[ids[i]]))) == Err(r.error)
      ensures r.Ok? ==>
                && |r.value| == |ids|
                && forall i | 0 <= i < |ids| :: Validate(AsValues(SchemaOf(ids[i], rows[ids[i]]))) == Ok(r.value[i])
      ensures RowsConsistent(rows) || Valid() ==>
                r.Ok? && |r.value| == |ids| && forall i | 0 <= i < |ids| :: r.value[i] == SchemaOf(ids[i], rows[ids[i]])
    {
      RowsAreConsistent(history);
      var schemas := [];
      var i := 0;
      while i < |ids|
        invariant 0 <= i <= |ids| && |schemas| == i
        invariant forall k | 0 <= k < i :: Validate(AsValues(SchemaOf(ids[k], rows[ids[k]]))) == Ok(schemas[k])
        invariant RowsConsistent(rows) ==> forall k | 0 <= k < i :: schemas[k] == SchemaOf(ids[k], rows[ids[k]])
      {
        var stored := SchemaOf(ids[i], rows[ids[i]]);
        RevalidateExactly(stored);
        var schema := Validate(AsValues(stored));
        if schema.Err? {
          return Err(schema.error);
        }
        schemas := schemas + [schema.value];
        i := i + 1;
      }
      return Ok(schemas);
    }
  }
}
