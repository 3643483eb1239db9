/**
 * The REST response envelopes of the map server (`ResponseMapUtil`): every
 * answer is a fresh map with exactly the keys "code", "msg" and "data".
 */
module Responses {
  import Wrappers

  /** The status codes the server answers with. */
  const STATUS_OK := 0
  const STATUS_NOT_FOUND := 1
  const STATUS_PARAM_CONFIG_ERROR_API := 2
  const STATUS_PARAM_CONFIG_ERROR_APP := 3
  const STATUS_RESOURCE_ALREADY_EXISTS := 4
  const STATUS_RESOURCE_OUT_OF_RANGE := 5
  const STATUS_OTHERS := 9

  /** A value stored in a response map: a boxed integer, a string, or any other payload object. */
  datatype Value<D> = Int(i: int) | Str(s: string) | Obj(o: D)

  /** The response map, `Map<String, Object>`. */
  type Response<D> = map<string, Value<D>>

  /** What a well-formed response carries. */
  datatype Envelope<D> = Envelope(code: int, msg: string, data: Value<D>)

  /** The three puts every builder performs, in the order "code", "msg", "data". */
  function Build<D>(code: int, msg: string, data: Value<D>): (m: Response<D>)
    ensures m.Keys == {"code", "msg", "data"}
  {
    map[]["code" := Int(code)]["msg" := Str(msg)]["data" := data]
  }

  /** Reads the envelope back out of a response map, if it has the three keys with the right kinds of value. */
  function Decode<D>(m: Response<D>): (r: Wrappers.Option<Envelope<D>>)
    ensures r.Some? ==> "code" in m && "msg" in m && "data" in m
  {
    if "code" in m && "msg" in m && "data" in m && m["code"].Int? && m["msg"].Str? then
      Wrappers.Some(Envelope(m["code"].i, m["msg"].s, m["data"]))
    else
      Wrappers.None
  }

  /** `ok()`: code 0, empty message, data "Nothing". */
  function Ok<D>(): (m: Response<D>)
    ensures Decode(m) == Wrappers.Some(Envelope(STATUS_OK, "", Str("Nothing")))
  {
    Build(STATUS_OK, "", Str("Nothing"))
  }

  /** `ok(data)`: code 0, empty message, the given data. */
  function OkData<D>(data: Value<D>): (m: Response<D>)
    ensures Decode(m) == Wrappers.Some(Envelope(STATUS_OK, "", data))
  {
    Build(STATUS_OK, "", data)
  }

  /** `notFound(msg)`: code 1, the given message, data "". */
  function NotFoundMsg<D>(msg: string): (m: Response<D>)
    ensures Decode(m) == Wrappers.Some(Envelope(STATUS_NOT_FOUND, msg, Str("")))
  {
    Build(STATUS_NOT_FOUND, msg, Str(""))
  }

  /** `notFound()`: delegates with the message "Not found!". */
  function NotFound<D>(): (m: Response<D>)
    ensures Decode(m) == Wrappers.Some(Envelope(STATUS_NOT_FOUND, "Not found!", Str("")))
  {
    NotFoundMsg("Not found!")
  }

  /** `nok(code, msg)`: the given code and message, data "". */
  function Nok<D>(code: int, msg: string): (m: Response<D>)
    ensures Decode(m) == Wrappers.Some(Envelope(code, msg, Str("")))
  {
    Build(code, msg, Str(""))
  }

  /** Building and decoding are inverse: a response is determined by its envelope, and every decodable three-key map is a built one. */
  lemma BuildDecodeInverse<D>(code: int, msg: string, data: Value<D>, m: Response<D>)
    ensures Decode(Build(code, msg, data)) == Wrappers.Some(Envelope(code, msg, data))
    ensures m.Keys == {"code", "msg", "data"} && Decode(m) == Wrappers.Some(Envelope(code, msg, data))
      ==> m == Build(code, msg, data)
  {
    if m.Keys == {"code", "msg", "data"} && Decode(m) == Wrappers.Some(Envelope(code, msg, data)) {
      var b := Build(code, msg, data);
      assert forall k :: k in m ==> k == "code" || k == "msg" || k == "data";
      assert forall k :: k in m ==> m[k] == b[k];
    }
  }

  /** `ok()` is `ok("Nothing")`: the string "Nothing" is the data. */
  lemma OkIsOkNothing<D>()
    ensures Ok<D>() == OkData(Str("Nothing"))
  {
  }

  /** A `nok` response equals a `notFound` one with the same message exactly when its code is STATUS_NOT_FOUND. */
  lemma NokIsNotFound<D>(code: int, msg: string)
    ensures Nok<D>(code, msg) == NotFoundMsg(msg) <==> code == STATUS_NOT_FOUND
  {
    if Nok<D>(code, msg) == NotFoundMsg(msg) {
      assert Nok<D>(code, msg)["code"] == Int(code);
    }
  }

  /** A success is never mistaken for a miss: an `ok(data)` response never equals a `notFound(msg)` one. */
  lemma OkDiffersFromNotFound<D>(data: Value<D>, msg: string)
    ensures OkData(data) != NotFoundMsg(msg)
  {
    assert OkData(data)["code"] != NotFoundMsg<D>(msg)["code"];
  }
}
