/**
 * `InvalidUsage` (main.py): the exception every refused request and every
 * failed upstream call is raised as. Its constructor sets the message, the
 * status code (the class-wide 400 unless one is passed) and the payload;
 * `to_dict` gives the JSON body the error handler sends back.
 */
module Errors {
  import opened Wrappers
  import opened JsonValues

  class InvalidUsage {
    /** The class attribute `status_code`, used when the constructor is given none. */
    static const DEFAULT_STATUS: int := 400

    var message: string
    var statusCode: int
    var payload: Option<map<string, Json>>

    constructor (message: string, statusCode: Option<int>, payload: Option<map<string, Json>>)
      ensures this.message == message
      ensures this.statusCode == if statusCode.Some? then statusCode.value else DEFAULT_STATUS
      ensures this.payload == payload
    {
      this.message := message;
      this.statusCode := if statusCode.Some? then statusCode.value else DEFAULT_STATUS;
      this.payload := payload;
    }

    /** The keys the payload contributes (none when there is no payload). */
    function PayloadKeys(): set<string>
      reads this
    {
      if payload.Some? then payload.value.Keys else {}
    }

    /**
     * `to_dict`: a copy of the payload with "message" set last, so the key
     * "message" always holds this error's message, whatever the payload had there.
     */
    function ToDict(): (d: map<string, Json>)
      reads this
      ensures d.Keys == PayloadKeys() + {"message"}
      ensures d["message"] == JString(message)
      ensures forall k :: k in d && k != "message" ==> payload.Some? && k in payload.value && d[k] == payload.value[k]
    {
      var base := if payload.Some? then payload.value else map[];
      base["message" := JString(message)]
    }
  }
}
