/** The part of the HTTP framework's request context that the services
    touch: the JSON response written, the abort flag, the request-scoped
    key/value store, and whether the next handler was run. */
module Gin {
  import opened Values

  const StatusOK := 200
  const StatusCreated := 201
  const StatusBadRequest := 400
  const StatusUnauthorized := 401
  const StatusInternalServerError := 500

  /** The `data` of a successful response. */
  datatype Data =
    | AuthData(token: string, userId: Uuid, email: string)
    | MessageData(message: string)

  /** The two JSON bodies the services write: `{success: false, error,
      code}` and `{success: true, data}`. */
  datatype Body =
    | ErrorBody(error: string, code: int)
    | SuccessBody(data: Data)

  datatype Response = Response(status: int, body: Body)

  /** The error response every guard clause writes: the status is repeated
      as the body's `code`. Its ensures are the definition other members'
      contracts are stated against. */
  function Failure(status: int, message: string): (r: Response)
    ensures r.body.ErrorBody? && r.body.code == r.status == status
    ensures r.body.error == message
  {
    Response(status, ErrorBody(message, status))
  }

  class Context {
    var keys: map<string, JsonValue>
    var written: Option<Response>
    var aborted: bool
    var proceeded: bool
    var panicked: Option<string>

    /** A fresh request: nothing written, nothing set. */
    constructor ()
      ensures keys == map[] && written == None
      ensures !aborted && !proceeded && panicked == None
    {
      keys := map[];
      written := None;
      aborted := false;
      proceeded := false;
      panicked := None;
    }

    /** c.Get: the value stored under `key` by an earlier handler. Its
        ensures are the definition of the lookup. */
    function Get(key: string): (r: Option<JsonValue>)
      reads this
      ensures r.Some? <==> key in keys
      ensures r.Some? ==> r.value == keys[key]
    {
      if key in keys then Some(keys[key]) else None
    }

    /** c.Set: stores `value` under `key`, leaving every other key as it was. */
    method Set(key: string, value: JsonValue)
      modifies this
      ensures keys == old(keys)[key := value]
      ensures written == old(written) && aborted == old(aborted)
      ensures proceeded == old(proceeded) && panicked == old(panicked)
    {
      keys := keys[key := value];
    }

    /** c.JSON: writes the response. */
    method Json(r: Response)
      modifies this
      ensures written == Some(r)
      ensures keys == old(keys) && aborted == old(aborted)
      ensures proceeded == old(proceeded) && panicked == old(panicked)
    {
      written := Some(r);
    }

    /** c.Abort: later handlers of the chain are not run. */
    method Abort()
      modifies this
      ensures aborted
      ensures keys == old(keys) && written == old(written)
      ensures proceeded == old(proceeded) && panicked == old(panicked)
    {
      aborted := true;
    }

    /** c.Next: the rest of the handler chain runs. */
    method Next()
      modifies this
      ensures proceeded
      ensures keys == old(keys) && written == old(written)
      ensures aborted == old(aborted) && panicked == old(panicked)
    {
      proceeded := true;
    }

    /** A Go panic raised while handling the request. */
    method Panic(message: string)
      modifies this
      ensures panicked == Some(message)
      ensures keys == old(keys) && written == old(written)
      ensures aborted == old(aborted) && proceeded == old(proceeded)
    {
      panicked := Some(message);
    }
  }
}
