/**
 * Parameter-schema assembly and the two request validators of one operation
 * (validate.js). The JSON-Schema validator is not modelled: it is passed in
 * as a function from a schema and the data to a `Verdict`.
 */
module Validate {
  import opened Outcomes

  /**
   * A Parameter Object of an OpenAPI 2.0 operation. Only `name` and `in`
   * (here `location`) are read; the other fields (`type`, `required`,
   * `format`, ...) travel along unchanged in `attributes`.
   */
  datatype Parameter = Parameter(name: string, location: string, attributes: map<string, string>)

  /** The object schema of one parameter location: its `properties` map parameter names to parameters. */
  datatype SlotSchema = SlotSchema(title: string, description: string, kind: string, properties: map<string, Parameter>)

  /** The object schema of all non-body parameters, one slot per location. */
  datatype ParametersSchema = ParametersSchema(title: string, description: string, kind: string, properties: map<string, SlotSchema>)

  /** A request's parameters grouped by location, as handed to the validator. */
  datatype ParameterRecord = ParameterRecord(query: map<string, string>, header: map<string, string>, path: map<string, string>)

  /** The failure of assembly: a parameter whose location has no slot in the schema. */
  datatype SchemaError = NoSlot(name: string, location: string)

  const BodyLocation: string := "body"

  /** The slots `Parameters` asks `createSchemas` for, in order. */
  const Locations: seq<string> := ["header", "query", "path"]

  /** The empty schema of one location of the operation `verb path`. */
  function EmptySlot(key: string, path: string, verb: string): SlotSchema {
    SlotSchema("HTTP " + key, "HTTP " + key + " parameters schema for '" + verb + " " + path + "'", "object", map[])
  }

  /** The `keys.reduce(… Object.assign(acc, {[key]: …}) …, acc)` of `createSchemas`. */
  function AddSlots(keys: seq<string>, path: string, verb: string, acc: map<string, SlotSchema>): (r: map<string, SlotSchema>)
    ensures r.Keys == acc.Keys + set k | k in keys
    ensures forall k :: k in keys ==> r[k] == EmptySlot(k, path, verb)
    ensures forall k :: k in acc && k !in keys ==> r[k] == acc[k]
    decreases |keys|
  {
    if keys == [] then acc
    else AddSlots(keys[1..], path, verb, acc[keys[0] := EmptySlot(keys[0], path, verb)])
  }

  /** `createSchemas`: an object schema with one empty object schema per key. */
  function CreateSchemas(keys: seq<string>, path: string, verb: string): (r: ParametersSchema)
    ensures r.title == "HTTP parameters" && r.kind == "object"
    ensures r.description == "HTTP header, path, and query parameters"
    ensures r.properties.Keys == set k | k in keys
    ensures forall k :: k in r.properties ==>
              && r.properties[k].properties == map[]
              && r.properties[k].kind == "object"
              && r.properties[k].title == "HTTP " + k
              && r.properties[k].description == "HTTP " + k + " parameters schema for '" + verb + " " + path + "'"
  {
    ParametersSchema("HTTP parameters", "HTTP header, path, and query parameters", "object",
                     AddSlots(keys, path, verb, map[]))
  }

  /** The skeleton `Parameters` starts from has exactly the header, query and path slots. */
  lemma SkeletonSlots(path: string, verb: string)
    ensures CreateSchemas(Locations, path, verb).properties.Keys == {"header", "query", "path"}
    ensures BodyLocation !in CreateSchemas(Locations, path, verb).properties
  {
    var keys := set k | k in Locations;
    assert "header" == Locations[0] && "query" == Locations[1] && "path" == Locations[2];
    assert keys == {"header", "query", "path"};
    assert BodyLocation !in keys by {
      assert BodyLocation != Locations[0] && BodyLocation != Locations[1] && BodyLocation != Locations[2];
    }
  }

  /** A parameter the reducer cannot file: not in the body, and no slot for its location. */
  predicate Unslotted(p: Parameter) {
    p.location != BodyLocation && p.location !in Locations
  }

  /**
   * The entries the reducer files under location `loc` after the parameters
   * `ps`, taken in list order: a later parameter with the same name replaces
   * an earlier one, and body parameters are skipped.
   */
  function Filed(ps: seq<Parameter>, loc: string): map<string, Parameter>
    decreases |ps|
  {
    if ps == [] then map[]
    else
      var p := ps[|ps| - 1];
      var earlier := Filed(ps[..|ps| - 1], loc);
      if p.location != BodyLocation && p.location == loc then earlier[p.name := p] else earlier
  }

  /** A schema whose every slot holds what the parameters `ps` file there. */
  function Fill(s: ParametersSchema, ps: seq<Parameter>): (r: ParametersSchema)
    ensures r.properties.Keys == s.properties.Keys
  {
    s.(properties := map l | l in s.properties :: s.properties[l].(properties := Filed(ps, l)))
  }

  /**
   * The reducer of `Parameters`: a body parameter leaves the accumulator as
   * it is; any other parameter is stored under its name in the slot of its
   * location, replacing an entry of the same name and leaving every other
   * entry alone. A location without a slot makes the assignment throw.
   */
  function FileParameter(acc: ParametersSchema, p: Parameter): (r: Result<ParametersSchema, SchemaError>)
    ensures r.Failure? <==> p.location != BodyLocation && p.location !in acc.properties
    ensures r.Failure? ==> r.error == NoSlot(p.name, p.location)
    ensures r.Success? && p.location == BodyLocation ==> r.value == acc
    ensures r.Success? ==> r.value.(properties := map[]) == acc.(properties := map[])
    ensures r.Success? ==> r.value.properties.Keys == acc.properties.Keys
    ensures r.Success? && p.location != BodyLocation ==>
              && p.name in r.value.properties[p.location].properties
              && r.value.properties[p.location].properties[p.name] == p
    ensures r.Success? ==> forall l, n :: l in acc.properties && n in acc.properties[l].properties && (l, n) != (p.location, p.name) ==>
              n in r.value.properties[l].properties && r.value.properties[l].properties[n] == acc.properties[l].properties[n]
    ensures r.Success? ==> forall l, n :: l in r.value.properties && n in r.value.properties[l].properties && (l, n) != (p.location, p.name) ==>
              n in acc.properties[l].properties
    ensures r.Success? ==> forall l :: l in acc.properties ==>
              r.value.properties[l].(properties := map[]) == acc.properties[l].(properties := map[])
  {
    if p.location == BodyLocation then Success(acc)
    else if p.location !in acc.properties then Failure(NoSlot(p.name, p.location))
    else
      var slot := acc.properties[p.location];
      Success(acc.(properties := acc.properties[p.location := slot.(properties := slot.properties[p.name := p])]))
  }

  /** Filling a skeleton whose slots are all empty with no parameters changes nothing. */
  lemma FillNothing(s: ParametersSchema)
    requires forall l :: l in s.properties ==> s.properties[l].properties == map[]
    ensures Fill(s, []) == s
  {
    assert Fill(s, []).properties == s.properties;
  }

  /** Filing one more parameter into the filled skeleton gives the skeleton filled with one more parameter. */
  lemma FillStep(s: ParametersSchema, ps: seq<Parameter>, p: Parameter)
    requires FileParameter(Fill(s, ps), p).Success?
    ensures FileParameter(Fill(s, ps), p).value == Fill(s, ps + [p])
  {
    assert (ps + [p])[..|ps|] == ps;
    assert (ps + [p])[|ps|] == p;
  }

  /**
   * `parameters.reduce(reducer, initial)`: files the parameters one by one,
   * in list order, and stops at the first one without a slot.
   */
  method FileAll(initial: ParametersSchema, params: seq<Parameter>) returns (r: Result<ParametersSchema, SchemaError>)
    requires forall l :: l in initial.properties ==> initial.properties[l].properties == map[]
    ensures r.Success? <==> forall i :: 0 <= i < |params| ==> params[i].location == BodyLocation || params[i].location in initial.properties
    ensures r.Failure? ==> exists i :: 0 <= i < |params| && params[i].location != BodyLocation && params[i].location !in initial.properties
                                       && (forall j :: 0 <= j < i ==> params[j].location == BodyLocation || params[j].location in initial.properties)
                                       && r.error == NoSlot(params[i].name, params[i].location)
    ensures r.Success? ==> r.value == Fill(initial, params)
  {
    FillNothing(initial);
    assert params[..0] == [];
    var acc := initial;
    var i := 0;
    while i < |params|
      invariant 0 <= i <= |params|
      invariant forall j :: 0 <= j < i ==> params[j].location == BodyLocation || params[j].location in initial.properties
      invariant acc == Fill(initial, params[..i])
    {
      var p := params[i];
      var next := FileParameter(acc, p);
      if next.Failure? {
        return next;
      }
      assert params[..i + 1] == params[..i] + [p];
      FillStep(initial, params[..i], p);
      acc := next.value;
      i := i + 1;
    }
    assert params[..i] == params;
    return Success(acc);
  }

  /**
   * `Parameters`, up to the compilation of the schema: the operation's
   * parameters folded into the three-slot skeleton. A parameter whose
   * location has no slot makes the nested assignment throw.
   */
  method AssembleSchema(path: string, verb: string, params: seq<Parameter>) returns (r: Result<ParametersSchema, SchemaError>)
    ensures r.Success? <==> forall i :: 0 <= i < |params| ==> !Unslotted(params[i])
    ensures r.Failure? ==> exists i :: 0 <= i < |params| && Unslotted(params[i])
                                       && (forall j :: 0 <= j < i ==> !Unslotted(params[j]))
                                       && r.error == NoSlot(params[i].name, params[i].location)
    ensures r.Success? ==> r.value == Fill(CreateSchemas(Locations, path, verb), params)
  {
    var skeleton := CreateSchemas(Locations, path, verb);
    assert forall l :: l in skeleton.properties <==> l in Locations;
    r := FileAll(skeleton, params);
  }

  /** A name is filed under `loc` exactly when some non-body parameter at `loc` carries it. */
  lemma {:induction false} FiledNames(ps: seq<Parameter>, loc: string, name: string)
    ensures name in Filed(ps, loc) <==>
              loc != BodyLocation && exists i :: 0 <= i < |ps| && ps[i].location == loc && ps[i].name == name
    decreases |ps|
  {
    if ps != [] {
      var init := ps[..|ps| - 1];
      FiledNames(init, loc, name);
      if exists i :: 0 <= i < |init| && init[i].location == loc && init[i].name == name {
        var i :| 0 <= i < |init| && init[i].location == loc && init[i].name == name;
        assert ps[i] == init[i];
      }
      if exists i :: 0 <= i < |ps| && ps[i].location == loc && ps[i].name == name {
        var i :| 0 <= i < |ps| && ps[i].location == loc && ps[i].name == name;
        if i < |ps| - 1 {
          assert init[i] == ps[i];
        }
      }
    }
  }

  /**
   * Of several parameters with the same location and name, the last one in
   * list order is the one filed.
   */
  lemma {:induction false} FiledLastWins(ps: seq<Parameter>, i: nat)
    requires i < |ps| && ps[i].location != BodyLocation
    requires forall j :: i < j < |ps| ==> ps[j].location != ps[i].location || ps[j].name != ps[i].name
    ensures ps[i].name in Filed(ps, ps[i].location)
    ensures Filed(ps, ps[i].location)[ps[i].name] == ps[i]
    decreases |ps|
  {
    if i < |ps| - 1 {
      var init := ps[..|ps| - 1];
      assert init[i] == ps[i];
      FiledLastWins(init, i);
    }
  }

  /** Everything filed under `loc` is a parameter of the list located at `loc`, so never a body parameter. */
  lemma {:induction false} FiledFromList(ps: seq<Parameter>, loc: string, name: string)
    requires name in Filed(ps, loc)
    ensures Filed(ps, loc)[name] in ps
    ensures Filed(ps, loc)[name].name == name && Filed(ps, loc)[name].location == loc
    ensures Filed(ps, loc)[name].location != BodyLocation
    decreases |ps|
  {
    var init := ps[..|ps| - 1];
    var p := ps[|ps| - 1];
    if !(p.location != BodyLocation && p.location == loc && p.name == name) {
      FiledFromList(init, loc, name);
      assert Filed(init, loc)[name] in init;
    }
  }

  /**
   * The assembled schema has exactly the header, query and path slots; each
   * holds the parameters located there and nothing from the body.
   */
  lemma AssembledSlots(path: string, verb: string, params: seq<Parameter>, loc: string, name: string)
    ensures Fill(CreateSchemas(Locations, path, verb), params).properties.Keys == {"header", "query", "path"}
    ensures loc in {"header", "query", "path"} ==>
              (name in Fill(CreateSchemas(Locations, path, verb), params).properties[loc].properties
               <==> exists i :: 0 <= i < |params| && params[i].location == loc && params[i].name == name)
    ensures loc in {"header", "query", "path"} &&
            name in Fill(CreateSchemas(Locations, path, verb), params).properties[loc].properties ==>
              Fill(CreateSchemas(Locations, path, verb), params).properties[loc].properties[name].location != BodyLocation
  {
    SkeletonSlots(path, verb);
    FiledNames(params, loc, name);
    if name in Filed(params, loc) {
      FiledFromList(params, loc, name);
    }
  }

  /** The request as the parameter validator sees it: three string maps. */
  class Request {
    var query: map<string, string>
    var headers: map<string, string>
    var params: map<string, string>
  }

  /**
   * `validateParameters`: stores the router's path captures as the request's
   * params, validates query, headers and params against the compiled schema,
   * and calls back exactly once, with the serialised errors on failure.
   */
  method ValidateParameters(schema: ParametersSchema, validator: (ParametersSchema, ParameterRecord) -> Verdict,
                            req: Request, pathParams: map<string, string>) returns (c: Completion)
    modifies req`params
    ensures req.params == pathParams
    ensures req.query == old(req.query) && req.headers == old(req.headers)
    ensures c != NoCallback
    ensures c == Done <==> validator(schema, ParameterRecord(old(req.query), old(req.headers), pathParams)).valid
    ensures c.Failed? ==> c.message == validator(schema, ParameterRecord(old(req.query), old(req.headers), pathParams)).errors
  {
    req.params := pathParams;
    var parameters := ParameterRecord(req.query, req.headers, req.params);
    var verdict := validator(schema, parameters);
    if !verdict.valid {
      return Failed(verdict.errors);
    }
    return Done;
  }

  /**
   * `Parameters` and one call of the `validateParameters` closure it returns:
   * the schema is assembled once from the operation's parameters, and the
   * request is validated against exactly that schema. When assembly throws,
   * there is no closure and the request is not touched.
   */
  method Parameters(path: string, verb: string, params: seq<Parameter>,
                    validator: (ParametersSchema, ParameterRecord) -> Verdict,
                    req: Request, pathParams: map<string, string>) returns (r: Result<Completion, SchemaError>)
    modifies req`params
    ensures r.Failure? <==> exists i :: 0 <= i < |params| && Unslotted(params[i])
    ensures r.Failure? ==> exists i :: 0 <= i < |params| && Unslotted(params[i])
                                       && (forall j :: 0 <= j < i ==> !Unslotted(params[j]))
                                       && r.error == NoSlot(params[i].name, params[i].location)
    ensures r.Failure? ==> req.params == old(req.params)
    ensures r.Success? ==> req.params == pathParams
    ensures req.query == old(req.query) && req.headers == old(req.headers)
    ensures r.Success? ==> r.value != NoCallback
    ensures r.Success? ==>
              var verdict := validator(Fill(CreateSchemas(Locations, path, verb), params),
                                       ParameterRecord(old(req.query), old(req.headers), pathParams));
              && (r.value == Done <==> verdict.valid)
              && (r.value.Failed? ==> r.value.message == verdict.errors)
  {
    var schema := AssembleSchema(path, verb, params);
    if schema.Failure? {
      return Failure(schema.error);
    }
    var c := ValidateParameters(schema.value, validator, req, pathParams);
    return Success(c);
  }

  /** The parameter at `i` is the first body parameter of the list. */
  predicate FirstBodyAt(ps: seq<Parameter>, i: nat)
    requires i < |ps|
  {
    ps[i].location == BodyLocation && forall j :: 0 <= j < i ==> ps[j].location != BodyLocation
  }

  /** `parameters.find((p) => p.in === 'body')`, as the index of what it finds. */
  function FindBody(ps: seq<Parameter>): (r: Option<nat>)
    ensures r.None? <==> forall i :: 0 <= i < |ps| ==> ps[i].location != BodyLocation
    ensures r.Some? ==> r.value < |ps| && FirstBodyAt(ps, r.value)
    decreases |ps|
  {
    if ps == [] then None
    else if ps[0].location == BodyLocation then Some(0)
    else
      match FindBody(ps[1..])
      case None => None
      case Some(k) => Some(k + 1)
  }

  /**
   * `body` as written: with no body parameter it calls back at once; else it
   * validates the decoded body against the first body parameter and calls
   * back only when that succeeds. An invalid body gets no callback at all.
   */
  function Body<D>(params: seq<Parameter>, data: D, validator: (Parameter, D) -> Verdict): (c: Completion)
    ensures !c.Failed?
    ensures c == Done <==>
              (forall i :: 0 <= i < |params| ==> params[i].location != BodyLocation) ||
              (exists i :: 0 <= i < |params| && FirstBodyAt(params, i) && validator(params[i], data).valid)
    ensures c == NoCallback <==>
              exists i :: 0 <= i < |params| && FirstBodyAt(params, i) && !validator(params[i], data).valid
  {
    match FindBody(params)
    case None => Done
    case Some(i) =>
      assert forall j :: 0 <= j < |params| && FirstBodyAt(params, j) ==> j == i;
      if validator(params[i], data).valid then Done else NoCallback
  }

  /** The hang: one invalid body parameter, and `body` never calls back. */
  lemma InvalidBodyNeverCallsBack()
    ensures Body([Parameter("payload", BodyLocation, map[])], 0, (p: Parameter, d: int) => Verdict(false, "[]")) == NoCallback
  {
  }

  /**
   * `body` as evidently intended: the same decision, but an invalid body is
   * reported through the callback, like an invalid parameter.
   */
  function CheckBody<D>(params: seq<Parameter>, data: D, validator: (Parameter, D) -> Verdict): (c: Completion)
    ensures c != NoCallback
    ensures c == Done <==>
              (forall i :: 0 <= i < |params| ==> params[i].location != BodyLocation) ||
              (exists i :: 0 <= i < |params| && FirstBodyAt(params, i) && validator(params[i], data).valid)
    ensures c.Failed? <==>
              exists i :: 0 <= i < |params| && FirstBodyAt(params, i) && !validator(params[i], data).valid
    ensures c.Failed? ==> exists i :: 0 <= i < |params| && FirstBodyAt(params, i) && c.message == validator(params[i], data).errors
  {
    match FindBody(params)
    case None => Done
    case Some(i) =>
      assert forall j :: 0 <= j < |params| && FirstBodyAt(params, j) ==> j == i;
      var verdict := validator(params[i], data);
      if verdict.valid then Done else Failed(verdict.errors)
  }

  /** Where `body` calls back at all, the corrected check gives the same answer. */
  lemma CheckBodyAgrees<D>(params: seq<Parameter>, data: D, validator: (Parameter, D) -> Verdict)
    ensures Body(params, data, validator) != NoCallback ==> CheckBody(params, data, validator) == Body(params, data, validator)
    ensures Body(params, data, validator) == NoCallback ==> CheckBody(params, data, validator).Failed?
  {
  }
}
