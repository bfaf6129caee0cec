/** The JSON-RPC messages and their byte form. */
module Messages {
  import opened Prelude
  import opened Json

  datatype Id = NoId | StrId(text: string) | IntId(number: int)

  datatype Request = Request(id: Id, target: string, params: Option<seq<Field>>)

  datatype ErrorObject = ErrorObject(code: int, message: string, data: Json)

  /** `result` is Null where the Python field is None. */
  datatype Response = Response(id: Id, result: Json, error: Option<ErrorObject>) {
    /** The model validator: never both a result and an error. */
    predicate Valid() {
      result == Null || error == None
    }

    predicate Fails(code: int) {
      error.Some? && error.value.code == code
    }
  }

  function Ok(id: Id, result: Json): Response {
    Response(id, result, None)
  }

  function Fail(id: Id, code: int, message: string, data: Json): Response {
    Response(id, Null, Some(ErrorObject(code, message, data)))
  }

  /** The parameters of a request; none is as good as an empty object. */
  function ParamsOf(params: Option<seq<Field>>): seq<Field> {
    if params.Some? then params.value else []
  }

  // ------------------------------------------------------ reading object fields

  /** A dictionary built from JSON keeps the last value of a repeated key. */
  function Lookup(fields: seq<Field>, key: string): Option<Json> {
    if fields == [] then None
    else
      var later := Lookup(fields[1..], key);
      if later.Some? then later
      else if fields[0].key == key then Some(fields[0].value) else None
  }

  /** No key besides these; every model here forbids others. */
  predicate OnlyKeys(fields: seq<Field>, keys: set<string>) {
    forall i :: 0 <= i < |fields| ==> fields[i].key in keys
  }

  function LookupOr(fields: seq<Field>, key: string, default: Json): Json {
    var found := Lookup(fields, key);
    if found.Some? then found.value else default
  }

  // ---------------------------------------------------------------- requests

  function IdToJson(id: Id): Json {
    match id
    case NoId => Null
    case StrId(s) => Str(s)
    case IntId(n) => Int(n)
  }

  function IdFromJson(j: Json): Option<Id> {
    match j
    case Null => Some(NoId)
    case Str(s) => Some(StrId(s))
    case Int(n) => Some(IntId(n))
    case _ => None
  }

  function ParamsFromJson(j: Json): Option<Option<seq<Field>>> {
    match j
    case Null => Some(None)
    case Obj(fields) => Some(Some(fields))
    case _ => None
  }

  function RequestToJson(r: Request): Json {
    Obj([
      Field("jsonrpc", Str("2.0")),
      Field("id", IdToJson(r.id)),
      Field("method", Str(r.target)),
      Field("params", if r.params.Some? then Obj(r.params.value) else Null)
    ])
  }

  function RequestFromJson(j: Json): Option<Request> {
    if !j.Obj? || !OnlyKeys(j.fields, {"jsonrpc", "id", "method", "params"}) then None
    else if LookupOr(j.fields, "jsonrpc", Str("2.0")) != Str("2.0") then None
    else
      var target :- Lookup(j.fields, "method");
      var id :- IdFromJson(LookupOr(j.fields, "id", Null));
      var params :- ParamsFromJson(LookupOr(j.fields, "params", Null));
      if target.Str? then Some(Request(id, target.text, params)) else None
  }

  function EncodeRequest(r: Request): seq<byte> {
    Encode(RequestToJson(r))
  }

  function DecodeRequest(b: seq<byte>): Option<Request> {
    var j :- Decode(b);
    RequestFromJson(j)
  }

  // ---------------------------------------------------------------- responses

  function ErrorToJson(e: ErrorObject): Json {
    Obj([Field("code", Int(e.code)), Field("message", Str(e.message)), Field("data", e.data)])
  }

  function ErrorFromJson(j: Json): Option<Option<ErrorObject>> {
    if j == Null then Some(None)
    else if !j.Obj? || !OnlyKeys(j.fields, {"code", "message", "data"}) then None
    else
      var code :- Lookup(j.fields, "code");
      var message :- Lookup(j.fields, "message");
      if code.Int? && message.Str?
      then Some(Some(ErrorObject(code.number, message.text, LookupOr(j.fields, "data", Null))))
      else None
  }

  function ResponseToJson(r: Response): Json {
    Obj([
      Field("jsonrpc", Str("2.0")),
      Field("id", IdToJson(r.id)),
      Field("result", r.result),
      Field("error", if r.error.Some? then ErrorToJson(r.error.value) else Null)
    ])
  }

  function ResponseFromJson(j: Json): Option<Response> {
    if !j.Obj? || !OnlyKeys(j.fields, {"jsonrpc", "id", "result", "error"}) then None
    else if LookupOr(j.fields, "jsonrpc", Str("2.0")) != Str("2.0") then None
    else
      var id :- IdFromJson(LookupOr(j.fields, "id", Null));
      var error :- ErrorFromJson(LookupOr(j.fields, "error", Null));
      var r := Response(id, LookupOr(j.fields, "result", Null), error);
      if r.Valid() then Some(r) else None
  }

  function EncodeResponse(r: Response): seq<byte> {
    Encode(ResponseToJson(r))
  }

  function DecodeResponse(b: seq<byte>): Option<Response> {
    var j :- Decode(b);
    ResponseFromJson(j)
  }

  // ---------------------------------------------------------------- what is readable

  predicate HasField(fields: seq<Field>, key: string) {
    exists i :: 0 <= i < |fields| && fields[i].key == key
  }

  predicate IsLastOf(fields: seq<Field>, i: int, key: string) {
    0 <= i < |fields| && fields[i].key == key && forall j :: i < j < |fields| ==> fields[j].key != key
  }

  /** The last field of this key has this value. */
  ghost predicate Holds(fields: seq<Field>, key: string, value: Json) {
    exists i :: IsLastOf(fields, i, key) && fields[i].value == value
  }

  lemma HasFieldOfTail(fields: seq<Field>, key: string)
    requires fields != []
    ensures HasField(fields, key) <==> fields[0].key == key || HasField(fields[1..], key)
  {
    var tail := fields[1..];
    if HasField(tail, key) {
      var k :| 0 <= k < |tail| && tail[k].key == key;
      assert fields[k + 1].key == key;
    }
    if HasField(fields, key) && fields[0].key != key {
      var k :| 0 <= k < |fields| && fields[k].key == key;
      assert tail[k - 1].key == key;
    }
  }

  lemma LastOfTail(fields: seq<Field>, i: int, key: string)
    requires 0 < i < |fields|
    ensures IsLastOf(fields, i, key) <==> IsLastOf(fields[1..], i - 1, key)
  {
    var tail := fields[1..];
    if IsLastOf(tail, i - 1, key) {
      assert forall j :: i < j < |fields| ==> fields[j] == tail[j - 1];
    }
    if IsLastOf(fields, i, key) {
      assert forall j :: i - 1 < j < |tail| ==> tail[j] == fields[j + 1];
    }
  }

  lemma HoldsOfTail(fields: seq<Field>, key: string, value: Json)
    requires fields != []
    ensures Holds(fields, key, value) <==>
              Holds(fields[1..], key, value) || (fields[0] == Field(key, value) && !HasField(fields[1..], key))
  {
    var tail := fields[1..];
    if Holds(tail, key, value) {
      var k :| IsLastOf(tail, k, key) && tail[k].value == value;
      LastOfTail(fields, k + 1, key);
    }
    if Holds(fields, key, value) {
      var k :| IsLastOf(fields, k, key) && fields[k].value == value;
      if k > 0 {
        LastOfTail(fields, k, key);
      } else {
        assert forall j :: 0 <= j < |tail| ==> tail[j] == fields[j + 1];
      }
    }
    if fields[0] == Field(key, value) && !HasField(tail, key) {
      assert forall j :: 0 < j < |fields| ==> fields[j] == tail[j - 1];
      assert IsLastOf(fields, 0, key);
    }
  }

  /** As a dictionary does, a lookup finds the last value of a repeated key. */
  lemma {:induction false} LookupIff(fields: seq<Field>, key: string, value: Json)
    ensures Lookup(fields, key) == Some(value) <==> Holds(fields, key, value)
    ensures Lookup(fields, key) == None <==> !HasField(fields, key)
  {
    if fields != [] {
      LookupIff(fields[1..], key, value);
      HasFieldOfTail(fields, key);
      HoldsOfTail(fields, key, value);
      hide Holds, HasField;
      if Holds(fields[1..], key, value) {
        assert Lookup(fields[1..], key) == Some(value);
      }
    }
  }

  /** The field is absent or has this value; absence stands for the default. */
  ghost predicate HoldsOr(fields: seq<Field>, key: string, default: Json, value: Json) {
    if HasField(fields, key) then Holds(fields, key, value) else value == default
  }

  lemma LookupOrIff(fields: seq<Field>, key: string, default: Json, value: Json)
    ensures LookupOr(fields, key, default) == value <==> HoldsOr(fields, key, default, value)
  {
    LookupIff(fields, key, value);
  }

  ghost predicate HoldsId(fields: seq<Field>, id: Id) {
    HoldsOr(fields, "id", Null, match id case NoId => Null case StrId(text) => Str(text) case IntId(number) => Int(number))
  }

  ghost predicate HoldsParams(fields: seq<Field>, params: Option<seq<Field>>) {
    HoldsOr(fields, "params", Null, match params case None => Null case Some(members) => Obj(members))
  }

  ghost predicate HoldsOnly(j: Json, keys: set<string>) {
    j.Obj? && forall i :: 0 <= i < |j.fields| ==> j.fields[i].key in keys
  }

  /** The value is an object that stands for this request. */
  ghost predicate IsRequestOf(j: Json, r: Request) {
    && HoldsOnly(j, {"jsonrpc", "id", "method", "params"})
    && HoldsOr(j.fields, "jsonrpc", Str("2.0"), Str("2.0"))
    && HoldsId(j.fields, r.id)
    && Holds(j.fields, "method", Str(r.target))
    && HoldsParams(j.fields, r.params)
  }

  lemma IdReadIff(fields: seq<Field>, id: Id)
    ensures IdFromJson(LookupOr(fields, "id", Null)) == Some(id) <==> HoldsId(fields, id)
  {
    LookupOrIff(fields, "id", Null, match id case NoId => Null case StrId(text) => Str(text) case IntId(number) => Int(number));
    hide LookupOr, HoldsOr;
  }

  lemma ParamsReadIff(fields: seq<Field>, params: Option<seq<Field>>)
    ensures ParamsFromJson(LookupOr(fields, "params", Null)) == Some(params) <==> HoldsParams(fields, params)
  {
    LookupOrIff(fields, "params", Null, match params case None => Null case Some(members) => Obj(members));
    hide LookupOr, HoldsOr;
  }

  /** A value is read as a request if and only if it stands for it: with a method, of
      version 2.0, with an id and parameters of the right kinds if at all, and nothing else. */
  lemma RequestReadIff(j: Json, r: Request)
    ensures RequestFromJson(j) == Some(r) <==> IsRequestOf(j, r)
  {
    hide Holds, HasField, HoldsOr, HoldsId, HoldsParams, Lookup, LookupOr, IdFromJson, ParamsFromJson;
    if j.Obj? {
      LookupOrIff(j.fields, "jsonrpc", Str("2.0"), Str("2.0"));
      IdReadIff(j.fields, r.id);
      LookupIff(j.fields, "method", Str(r.target));
      ParamsReadIff(j.fields, r.params);
    }
  }

  /** The value stands for this error object. */
  ghost predicate IsErrorOf(j: Json, e: ErrorObject) {
    && HoldsOnly(j, {"code", "message", "data"})
    && Holds(j.fields, "code", Int(e.code)) && Holds(j.fields, "message", Str(e.message))
    && HoldsOr(j.fields, "data", Null, e.data)
  }

  ghost predicate HoldsError(fields: seq<Field>, e: Option<ErrorObject>) {
    match e
    case None => HoldsOr(fields, "error", Null, Null)
    case Some(error) => exists j :: Holds(fields, "error", j) && IsErrorOf(j, error)
  }

  ghost predicate IsResponseOf(j: Json, r: Response) {
    && HoldsOnly(j, {"jsonrpc", "id", "result", "error"})
    && HoldsOr(j.fields, "jsonrpc", Str("2.0"), Str("2.0"))
    && HoldsId(j.fields, r.id)
    && HoldsOr(j.fields, "result", Null, r.result)
    && HoldsError(j.fields, r.error)
    && (r.result == Null || r.error == None)
  }

  lemma ErrorObjectReadIff(j: Json, e: ErrorObject)
    ensures ErrorFromJson(j) == Some(Some(e)) <==> IsErrorOf(j, e)
  {
    hide Holds, HasField, HoldsOr, Lookup, LookupOr;
    if j.Obj? {
      LookupIff(j.fields, "code", Int(e.code));
      LookupIff(j.fields, "message", Str(e.message));
      LookupOrIff(j.fields, "data", Null, e.data);
    }
  }

  lemma ErrorReadIff(fields: seq<Field>, e: Option<ErrorObject>)
    ensures ErrorFromJson(LookupOr(fields, "error", Null)) == Some(e) <==> HoldsError(fields, e)
  {
    var found := LookupOr(fields, "error", Null);
    LookupOrIff(fields, "error", Null, Null);
    if e.Some? {
      ErrorObjectReadIff(found, e.value);
      LookupOrIff(fields, "error", Null, found);
      assert !IsErrorOf(Null, e.value);
      hide Holds, Lookup, LookupOr, IsErrorOf, ErrorFromJson;
      if HoldsError(fields, e) {
        var j :| Holds(fields, "error", j) && IsErrorOf(j, e.value);
        HoldsIsFound(fields, "error", Null, j);
      }
    }
  }

  lemma HoldsIsFound(fields: seq<Field>, key: string, default: Json, value: Json)
    requires Holds(fields, key, value)
    ensures LookupOr(fields, key, default) == value
  {
    LookupIff(fields, key, value);
  }

  /** The same for responses, which in addition never hold both a result and an error. */
  lemma ResponseReadIff(j: Json, r: Response)
    ensures ResponseFromJson(j) == Some(r) <==> IsResponseOf(j, r)
  {
    hide Holds, HasField, HoldsOr, HoldsId, HoldsError, Lookup, LookupOr, IdFromJson, ErrorFromJson;
    if j.Obj? {
      LookupOrIff(j.fields, "jsonrpc", Str("2.0"), Str("2.0"));
      IdReadIff(j.fields, r.id);
      LookupOrIff(j.fields, "result", Null, r.result);
      ErrorReadIff(j.fields, r.error);
    }
  }

  // ---------------------------------------------------------------- round trips

  lemma LookupInFour(a: Field, b: Field, c: Field, d: Field)
    requires a.key != b.key && a.key != c.key && a.key != d.key
    requires b.key != c.key && b.key != d.key && c.key != d.key
    ensures var fs := [a, b, c, d];
            && Lookup(fs, a.key) == Some(a.value) && Lookup(fs, b.key) == Some(b.value)
            && Lookup(fs, c.key) == Some(c.value) && Lookup(fs, d.key) == Some(d.value)
  {
    var fs := [a, b, c, d];
    LookupInThree(b, c, d);
    assert fs[1..] == [b, c, d];
    LookupAbsent([b, c, d], a.key);
  }

  lemma LookupInThree(a: Field, b: Field, c: Field)
    requires a.key != b.key && a.key != c.key && b.key != c.key
    ensures var fs := [a, b, c];
            && Lookup(fs, a.key) == Some(a.value)
            && Lookup(fs, b.key) == Some(b.value)
            && Lookup(fs, c.key) == Some(c.value)
  {
    var fs := [a, b, c];
    assert fs[1..] == [b, c] && fs[1..][1..] == [c] && fs[1..][1..][1..] == [];
    LookupAbsent([b, c], a.key);
    LookupAbsent([c], b.key);
    assert Lookup([c], c.key) == Some(c.value);
    assert Lookup([b, c], c.key) == Some(c.value);
  }

  lemma {:induction false} LookupAbsent(fields: seq<Field>, key: string)
    requires forall i :: 0 <= i < |fields| ==> fields[i].key != key
    ensures Lookup(fields, key) == None
  {
    if fields != [] {
      LookupAbsent(fields[1..], key);
    }
  }

  /** Every request, whatever its id, method and parameters, is read back as sent. */
  lemma RequestRoundTrip(r: Request)
    ensures DecodeRequest(EncodeRequest(r)) == Some(r)
  {
    var j := RequestToJson(r);
    DecodeUndoesEncode(j);
    LookupInFour(j.fields[0], j.fields[1], j.fields[2], j.fields[3]);
    assert j.fields == [j.fields[0], j.fields[1], j.fields[2], j.fields[3]];
  }

  /** A response is read back as sent exactly when it passes the model validator. */
  lemma ResponseRoundTripIff(r: Response)
    ensures DecodeResponse(EncodeResponse(r)) == (if r.Valid() then Some(r) else None)
  {
    var j := ResponseToJson(r);
    DecodeUndoesEncode(j);
    LookupInFour(j.fields[0], j.fields[1], j.fields[2], j.fields[3]);
    assert j.fields == [j.fields[0], j.fields[1], j.fields[2], j.fields[3]];
    if r.error.Some? {
      var e := ErrorToJson(r.error.value);
      LookupInThree(e.fields[0], e.fields[1], e.fields[2]);
      assert e.fields == [e.fields[0], e.fields[1], e.fields[2]];
    }
  }
}
