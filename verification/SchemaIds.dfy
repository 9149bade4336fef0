// Schema identifiers: printing, parsing, and the validation of schema fields.
module SchemaIds {
  import opened Text
  import opened Wrappers

  datatype Schema = Schema(did: string, name: string, version: string, id: string)

  // The fields given to the validator; a null value is None.
  type Values = map<string, Option<string>>

  datatype SchemaError =
    | ContainsColon   // a field of an Indy schema contains a colon
    | NullField       // searching a null field for a colon raises
    | Incomplete      // neither the id nor all other fields are given
    | IdMismatch      // the id is not the one the other fields make
    | MalformedId     // the id does not have four parts
    | FieldsRequired  // a field is still missing after validation

  const CHEQD := "did:cheqd:"

  predicate IsCheqd(id: string) { CHEQD <= id }

  function CalcSchemaId(did: string, name: string, version: string): string {
    did + ":2:" + name + ":" + version
  }

  predicate Free3(did: string, name: string, version: string) {
    Free(did, ':') && Free(name, ':') && Free(version, ':')
  }

  // What the loop over the fields finds out.
  datatype Scan = AllPresent | SomeAbsent | Raises(error: SchemaError)

  function ScanFields(values: Values, names: seq<string>): Scan {
    if names == [] then AllPresent
    else if names[0] !in values then SomeAbsent
    else if values[names[0]].None? then Raises(NullField)
    else if ':' in values[names[0]].value then Raises(ContainsColon)
    else ScanFields(values, names[1..])
  }

  const FIELDS := ["did", "name", "version"]

  function Get(values: Values, name: string): Option<string> {
    if name in values then values[name] else None
  }

  function Validate(values: Values): Result<Schema, SchemaError> {
    var id := Get(values, "id");
    if id.Some? && IsCheqd(id.value) then
      var name, version := Get(values, "name"), Get(values, "version");
      if name.None? || version.None? then Err(FieldsRequired)
      else Ok(Schema(Split(id.value, '/')[0], name.value, version.value, id.value))
    else
      match ScanFields(values, FIELDS)
      case Raises(error) => Err(error)
      case AllPresent =>
        FieldsPresent(values);
        var did, name, version := values["did"].value, values["name"].value, values["version"].value;
        var made := CalcSchemaId(did, name, version);
        if id.Some? && id.value != made then Err(IdMismatch) else Ok(Schema(did, name, version, made))
      case SomeAbsent =>
        if id.None? then Err(Incomplete)
        else
          var parts := Split(id.value, ':');
          if |parts| != 4 then Err(MalformedId) else Ok(Schema(parts[0], parts[2], parts[3], id.value))
  }

  predicate Given(values: Values, field: string) {
    field in values && values[field].Some? && Free(values[field].value, ':')
  }

  lemma FieldsPresent(values: Values)
    ensures ScanFields(values, FIELDS).AllPresent? <==>
            Given(values, "did") && Given(values, "name") && Given(values, "version")
    ensures ScanFields(values, FIELDS).SomeAbsent? ==> "did" !in values || "name" !in values || "version" !in values
  {
    assert ["version"][1..] == [] && ["name", "version"][1..] == ["version"];
    assert ScanFields(values, ["version"]).AllPresent? <==> Given(values, "version");
    assert ScanFields(values, ["version"]).SomeAbsent? <==> "version" !in values;
    assert ScanFields(values, ["name", "version"]).AllPresent? <==> Given(values, "name") && Given(values, "version");
    assert FIELDS[1..] == ["name", "version"];
  }

  // The validator: it scans the fields in a loop and writes the completed fields back.
  method ValidateAndSetValues(values: Values) returns (r: Result<Values, SchemaError>)
    ensures match Validate(values)
            case Ok(s) => r == Ok(values["did" := Some(s.did)]["name" := Some(s.name)]["version" := Some(s.version)]["id" := Some(s.id)])
            case Err(e) => e == FieldsRequired || r == Err(e)
    ensures Validate(values) == Err(FieldsRequired) ==>
              r.Ok? && "id" in r.value && (Get(r.value, "name").None? || Get(r.value, "version").None?)
  {
    var id := Get(values, "id");
    var cheqd := id.Some? && IsCheqd(id.value);
    var missing := false;
    var i := 0;
    assert FIELDS[0..] == FIELDS;
    while i < |FIELDS| && !missing
      invariant 0 <= i <= |FIELDS|
      invariant !cheqd ==> ScanFields(values, FIELDS) == if missing then SomeAbsent else ScanFields(values, FIELDS[i..])
    {
      var field := FIELDS[i];
      assert FIELDS[i..][0] == field && FIELDS[i..][1..] == FIELDS[i + 1..];
      if !cheqd {
        if field !in values {
          missing := true;
        } else if values[field].None? {
          return Err(NullField);
        } else if ':' in values[field].value {
          return Err(ContainsColon);
        }
      }
      i := i + 1;
    }
    FieldsPresent(values);
    var did, name, version: Option<string> := None, None, None;
    if !missing {
      did, name, version := Get(values, "did"), Get(values, "name"), Get(values, "version");
    }
    if cheqd {
      did, name, version := Some(Split(id.value, '/')[0]), Get(values, "name"), Get(values, "version");
    } else if id.None? {
      if missing {
        return Err(Incomplete);
      }
      id := Some(CalcSchemaId(did.value, name.value, version.value));
    } else if !missing {
      if id.value != CalcSchemaId(did.value, name.value, version.value) {
        return Err(IdMismatch);
      }
    } else {
      var parts := Split(id.value, ':');
      if |parts| != 4 {
        return Err(MalformedId);
      }
      did, name, version := Some(parts[0]), Some(parts[2]), Some(parts[3]);
    }
    r := Ok(values["did" := did]["name" := name]["version" := version]["id" := id]);
  }

  // ---- What the validator accepts ----

  // A cheqd schema needs a name and a version, and takes its DID from the id whatever else is given.
  lemma CheqdExactly(values: Values)
    requires Get(values, "id").Some? && "did:cheqd:" <= Get(values, "id").value
    ensures var id, name, version := Get(values, "id").value, Get(values, "name"), Get(values, "version");
            Validate(values) == if name.None? || version.None? then Err(FieldsRequired)
                                else Ok(Schema(Split(id, '/')[0], name.value, version.value, id))
  {
  }

  // Other fields are looked at in the order did, name, version, up to the first that is absent, null or
  // holds a colon.
  lemma FirstFieldDecides(values: Values, k: nat)
    requires Get(values, "id").Some? ==> !IsCheqd(Get(values, "id").value)
    requires k < 3 && forall j | 0 <= j < k :: Given(values, FIELDS[j])
    requires !Given(values, FIELDS[k])
    ensures var field := FIELDS[k];
            && (field in values ==>
                  Validate(values) == Err(if values[field].None? then NullField else ContainsColon))
            && (field !in values && Get(values, "id").None? ==> Validate(values) == Err(Incomplete))
            && (field !in values && Get(values, "id").Some? ==>
                  var id := Get(values, "id").value;
                  var parts := Split(id, ':');
                  Validate(values) == if |parts| == 4 then Ok(Schema(parts[0], parts[2], parts[3], id)) else Err(MalformedId))
  {
    assert FIELDS[0] == "did" && FIELDS[1] == "name" && FIELDS[2] == "version";
    assert FIELDS[1..] == ["name", "version"] && FIELDS[1..][1..] == ["version"];
    assert ScanFields(values, FIELDS[1..]) == ScanFields(values, ["name", "version"]);
    assert ScanFields(values, ["name", "version"][1..]) == ScanFields(values, ["version"]);
  }

  // With all three of them given and free of colons, the id is the one they make, and one that is given must be it.
  lemma FieldsMakeId(values: Values)
    requires Given(values, "did") && Given(values, "name") && Given(values, "version")
    requires Get(values, "id").Some? ==> !IsCheqd(Get(values, "id").value)
    ensures var did, name, version := values["did"].value, values["name"].value, values["version"].value;
            var made := Join([did, "2", name, version], ':');
            Validate(values) == if Get(values, "id") in {None, Some(made)} then Ok(Schema(did, name, version, made))
                                else Err(IdMismatch)
  {
    FieldsPresent(values);
    CalcIsJoin(values["did"].value, values["name"].value, values["version"].value);
  }

  // ---- Round trips ----

  function AsValues(s: Schema): Values {
    map["did" := Some(s.did), "name" := Some(s.name), "version" := Some(s.version), "id" := Some(s.id)]
  }

  lemma CalcIsJoin(did: string, name: string, version: string)
    ensures CalcSchemaId(did, name, version) == Join([did, "2", name, version], ':')
  {
    assert Join([did, "2", name, version][1..][1..][1..], ':') == version;
    assert [did, "2", name, version][1..] == ["2", name, version];
    assert ["2", name, version][1..] == [name, version];
    assert [name, version][1..] == [version];
    assert Join([name, version], ':') == name + ":" + version;
    assert Join(["2", name, version], ':') == "2" + ":" + (name + ":" + version);
    assert did + ":" + ("2" + ":" + (name + ":" + version)) == did + ":2:" + name + ":" + version;
  }

  // Splitting an id made of colon-free parts gives the parts back.
  lemma SplitCalc(did: string, name: string, version: string)
    requires Free3(did, name, version)
    ensures Split(CalcSchemaId(did, name, version), ':') == [did, "2", name, version]
  {
    CalcIsJoin(did, name, version);
    SplitJoinFree([did, "2", name, version], ':');
  }

  // Conversely, an id with four parts and the marker 2 is the one its parts make.
  lemma CalcSplit(id: string)
    ensures var parts := Split(id, ':');
            |parts| == 4 && parts[1] == "2" ==>
              CalcSchemaId(parts[0], parts[2], parts[3]) == id && Free3(parts[0], parts[2], parts[3])
  {
    var parts := Split(id, ':');
    JoinOfSplit(id, ':');
    if |parts| == 4 && parts[1] == "2" {
      CalcIsJoin(parts[0], parts[2], parts[3]);
      assert parts == [parts[0], "2", parts[2], parts[3]];
      assert Free(parts[0], ':') && Free(parts[2], ':') && Free(parts[3], ':');
    }
  }

  // A cheqd id begins with the parts did and cheqd.
  lemma CheqdParts(id: string)
    requires IsCheqd(id)
    ensures |Split(id, ':')| >= 3 && Split(id, ':')[0] == "did" && Split(id, ':')[1] == "cheqd"
  {
    var rest := id[10..];
    assert id == "did" + [':'] + ("cheqd" + [':'] + rest);
    SplitPart("cheqd", ':');
    SplitPart("did", ':');
    SplitConcat("cheqd", rest, ':');
    SplitConcat("did", "cheqd" + [':'] + rest, ':');
  }

  lemma CalcIsNotCheqd(did: string, name: string, version: string)
    requires Free3(did, name, version)
    ensures !IsCheqd(CalcSchemaId(did, name, version))
  {
    SplitCalc(did, name, version);
    if IsCheqd(CalcSchemaId(did, name, version)) {
      CheqdParts(CalcSchemaId(did, name, version));
    }
  }

  // Printing is injective on colon-free triples.
  lemma CalcIsInjective(a: Schema, b: Schema)
    requires Free3(a.did, a.name, a.version) && Free3(b.did, b.name, b.version)
    ensures CalcSchemaId(a.did, a.name, a.version) == CalcSchemaId(b.did, b.name, b.version) <==>
            a.did == b.did && a.name == b.name && a.version == b.version
  {
    SplitCalc(a.did, a.name, a.version);
    SplitCalc(b.did, b.name, b.version);
  }

  // A schema built from a printed id alone recovers the triple.
  lemma IdAloneRecovers(did: string, name: string, version: string)
    requires Free3(did, name, version)
    ensures var id := CalcSchemaId(did, name, version);
            Validate(map["id" := Some(id)]) == Ok(Schema(did, name, version, id))
  {
    SplitCalc(did, name, version);
    CalcIsNotCheqd(did, name, version);
  }

  // The id and the other fields of a schema agree.
  predicate Consistent(s: Schema) {
    if IsCheqd(s.id) then s.did == Split(s.id, '/')[0]
    else Free3(s.did, s.name, s.version) && s.id == CalcSchemaId(s.did, s.name, s.version)
  }

  // Validating a schema once more gives it back exactly if it is consistent.
  lemma RevalidateExactly(s: Schema)
    ensures Validate(AsValues(s)) == Ok(s) <==> Consistent(s)
  {
    FieldsPresent(AsValues(s));
  }

  // From a non-cheqd id alone, the validator asks only for four parts: what it accepts is consistent
  // exactly if the second part is the marker 2.
  lemma IdAloneExactly(id: string)
    requires !IsCheqd(id)
    ensures var r := Validate(map["id" := Some(id)]);
            && (r.Ok? <==> |Split(id, ':')| == 4)
            && (r.Ok? ==> r.value.id == id && (Consistent(r.value) <==> Split(id, ':')[1] == "2"))
  {
    var r := Validate(map["id" := Some(id)]);
    if r.Ok? {
      CalcSplit(id);
      if Consistent(r.value) {
        SplitCalc(r.value.did, r.value.name, r.value.version);
      }
    }
  }

  // An accepted schema that a second validation rejects: the id has the wrong marker.
  lemma IdAloneMayBeInconsistent()
    ensures var s := Schema("d", "n", "v", Join(["d", "3", "n", "v"], ':'));
            && Validate(map["id" := Some(s.id)]) == Ok(s)
            && Validate(AsValues(s)) != Ok(s)
  {
    var s := Schema("d", "n", "v", Join(["d", "3", "n", "v"], ':'));
    SplitJoinFree(["d", "3", "n", "v"], ':');
    if IsCheqd(s.id) {
      CheqdParts(s.id);
    }
    IdAloneExactly(s.id);
    RevalidateExactly(s);
  }

  // ---- Credential definition ids ----

  datatype LedgerError = TooFewParts | SchemaNotFound

  const CHEQD_PREFIX := "did:cheqd"

  // `ledger` answers the lookup of a schema by sequence number.
  function SchemaIdOf(credDefId: string, ledger: string -> Option<string>): Result<string, LedgerError> {
    if CHEQD_PREFIX <= credDefId then Ok("")
    else
      var tokens := Split(credDefId, ':');
      if |tokens| == 8 then Ok(Join(tokens[3..7], ':'))
      else if |tokens| < 4 then Err(TooFewParts)
      else
        var found := ledger(tokens[3]);
        if found.None? || found.value == "" then Err(SchemaNotFound) else Ok(found.value)
  }

  function DidOf(credDefId: string): string {
    if CHEQD_PREFIX <= credDefId then Split(credDefId, '/')[0] else Split(credDefId, ':')[0]
  }

  lemma CheqdPrefixParts(s: string)
    requires CHEQD_PREFIX <= s
    ensures |Split(s, ':')| >= 2 && |Split(s, ':')[1]| > 0 && Split(s, ':')[1][0] == 'c'
  {
    var rest := s[4..];
    assert s == "did" + [':'] + rest;
    SplitPart("did", ':');
    SplitConcat("did", rest, ':');
    assert rest[0] == 'c';
  }

  lemma SplitTagged(schemaId: string, tag: string)
    requires Free(tag, ':')
    ensures Split(schemaId + ":" + tag, ':') == Split(schemaId, ':') + [tag]
  {
    SplitPart(tag, ':');
    SplitConcat(schemaId, tag, ':');
  }

  lemma SplitCredDef(issuer: string, rest: string)
    requires Free(issuer, ':')
    ensures Split(issuer + ":3:CL:" + rest, ':') == [issuer, "3", "CL"] + Split(rest, ':')
  {
    assert issuer + ":3:CL:" + rest == issuer + [':'] + ("3:CL" + [':'] + rest);
    assert "3:CL" == "3" + [':'] + "CL";
    SplitPart(issuer, ':');
    SplitPart("3", ':');
    SplitPart("CL", ':');
    SplitConcat("3", "CL", ':');
    SplitConcat("3:CL", rest, ':');
    SplitConcat(issuer, "3:CL" + [':'] + rest, ':');
  }

  // A credential definition id names its issuer and embeds its schema id.
  lemma CredDefParts(issuer: string, did: string, name: string, version: string, tag: string,
                     ledger: string -> Option<string>)
    requires Free(issuer, ':') && Free3(did, name, version) && Free(tag, ':')
    ensures var id := issuer + ":3:CL:" + (CalcSchemaId(did, name, version) + ":" + tag);
            SchemaIdOf(id, ledger) == Ok(CalcSchemaId(did, name, version)) && DidOf(id) == issuer
  {
    var rest := CalcSchemaId(did, name, version) + ":" + tag;
    var id := issuer + ":3:CL:" + rest;
    SplitCalc(did, name, version);
    SplitTagged(CalcSchemaId(did, name, version), tag);
    SplitCredDef(issuer, rest);
    var tokens := Split(id, ':');
    assert |tokens| == 8 && tokens[0] == issuer && tokens[1] == "3";
    assert tokens[3..7] == [did, "2", name, version];
    CalcIsJoin(did, name, version);
    if CHEQD_PREFIX <= id {
      CheqdPrefixParts(id);
    }
  }

  // An older id holds a sequence number instead, under which the ledger is asked.
  lemma CredDefBySequence(issuer: string, seqNo: string, tag: string, ledger: string -> Option<string>)
    requires Free(issuer, ':') && Free(seqNo, ':') && Free(tag, ':')
    ensures var id := issuer + ":3:CL:" + (seqNo + ":" + tag);
            && DidOf(id) == issuer
            && SchemaIdOf(id, ledger) == match ledger(seqNo)
                                         case None => Err(SchemaNotFound)
                                         case Some(found) => if found == "" then Err(SchemaNotFound) else Ok(found)
  {
    var id := issuer + ":3:CL:" + (seqNo + ":" + tag);
    SplitPart(seqNo, ':');
    SplitTagged(seqNo, tag);
    SplitCredDef(issuer, seqNo + ":" + tag);
    var tokens := Split(id, ':');
    assert |tokens| == 5 && tokens[0] == issuer && tokens[1] == "3" && tokens[3] == seqNo;
    if CHEQD_PREFIX <= id {
      CheqdPrefixParts(id);
    }
  }

  // Which part of an id decides, by its shape: a cheqd id has no schema id yet, and one that has neither
  // eight parts nor a fourth raises.
  lemma SchemaIdByShape(credDefId: string, ledger: string -> Option<string>)
    ensures "did:cheqd" <= credDefId ==> SchemaIdOf(credDefId, ledger) == Ok("")
    ensures !("did:cheqd" <= credDefId) ==>
              var parts := Split(credDefId, ':');
              && (|parts| == 8 ==> SchemaIdOf(credDefId, ledger) == Ok(Join([parts[3], parts[4], parts[5], parts[6]], ':')))
              && (|parts| < 4 ==> SchemaIdOf(credDefId, ledger) == Err(TooFewParts))
              && (|parts| >= 4 && |parts| != 8 ==>
                    SchemaIdOf(credDefId, ledger) == if ledger(parts[3]) in {None, Some("")} then Err(SchemaNotFound)
                                                     else Ok(ledger(parts[3]).value))
  {
    var parts := Split(credDefId, ':');
    assert |parts| == 8 ==> parts[3..7] == [parts[3], parts[4], parts[5], parts[6]];
  }

  // A cheqd id names its issuer before the first slash.
  lemma CheqdIssuer(issuer: string, rest: string)
    requires CHEQD_PREFIX <= issuer && Free(issuer, '/')
    ensures DidOf(issuer + "/" + rest) == issuer
  {
    SplitPart(issuer, '/');
    SplitConcat(issuer, rest, '/');
  }

  // The memory cache in front of the lookup, keyed by the credential definition id alone.
  class SchemaIdCache {
    var entries: map<string, string>

    // Where the id itself decides, the cache holds what it decides.
    ghost predicate Valid()
      reads this
    {
      forall id | id in entries && (CHEQD_PREFIX <= id || |Split(id, ':')| == 8) ::
        SchemaIdOf(id, _ => None) == Ok(entries[id])
    }

    constructor ()
      ensures Valid() && entries == map[]
    {
      entries := map[];
    }

    // A hit never asks the ledger; a failure is not cached. For ids that embed their schema the answer
    // is the uncached one, whatever the ledger said or says.
    method Fetch(credDefId: string, ledger: string -> Option<string>) returns (r: Result<string, LedgerError>)
      requires Valid()
      modifies this
      ensures Valid()
      ensures r == if credDefId in old(entries) then Ok(old(entries)[credDefId]) else SchemaIdOf(credDefId, ledger)
      ensures entries == if r.Ok? then old(entries)[credDefId := r.value] else old(entries)
      ensures CHEQD_PREFIX <= credDefId || |Split(credDefId, ':')| == 8 ==> r == SchemaIdOf(credDefId, ledger)
    {
      if credDefId in entries {
        assert entries == entries[credDefId := entries[credDefId]];
        return Ok(entries[credDefId]);
      }
      r := SchemaIdOf(credDefId, ledger);
      if r.Ok? {
        entries := entries[credDefId := r.value];
      }
    }
  }
}
