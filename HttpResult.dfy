/**
 * `HttpResult.Exception`: the exception built from a deserialised response
 * envelope whose code is not a success. Building it runs the handlers
 * registered for its code in `OneHttpManager.errorCodeHandle`.
 */
module HttpResult {
  import opened Wrappers
  import opened JvmText

  /** The response envelope as deserialised: message, code and payload. */
  datatype HttpResult<D> = HttpResult(message: Option<string>, code: Int32, data: D)

  /**
   * The side effects of the handlers: each invocation of an `errorCodeHandle`
   * entry is recorded as the entry's key and handler.
   */
  class HandlerLog<H> {
    var invoked: seq<(Int32, H)>

    constructor ()
      ensures invoked == []
    {
      invoked := [];
    }

    /** `it.value.invoke()` for the entry `(key, handler)`. */
    method Invoke(key: Int32, handler: H)
      modifies this
      ensures invoked == old(invoked) + [(key, handler)]
    {
      invoked := invoked + [(key, handler)];
    }
  }

  /** The entries of `errorCodeHandle` whose key is `code`: the registered one, if any. */
  function MatchingEntries<H>(errorCodeHandle: map<Int32, H>, code: Int32): (es: seq<(Int32, H)>)
    ensures |es| <= 1
    ensures forall e :: e in es ==> e.0 == code && e.0 in errorCodeHandle && errorCodeHandle[e.0] == e.1
  {
    if code in errorCodeHandle then [(code, errorCodeHandle[code])] else []
  }

  /**
   * Every entry whose key is `code` is among the matching entries, and only
   * those: a handler registered under another code is never run.
   */
  lemma MatchingEntriesExactly<H>(errorCodeHandle: map<Int32, H>, code: Int32, key: Int32)
    requires key in errorCodeHandle
    ensures (key, errorCodeHandle[key]) in MatchingEntries(errorCodeHandle, code) <==> key == code
  {
  }

  class HttpResultException<D, H> {
    var message: Option<string>
    var errorCode: Int32
    var data: D

    /**
     * `Exception(httpResult)`: message, code and payload copied, then every
     * `errorCodeHandle` entry whose key equals the code invoked, in the map's
     * iteration order.
     */
    constructor (httpResult: HttpResult<D>, errorCodeHandle: map<Int32, H>, log: HandlerLog<H>)
      modifies log
      ensures message == httpResult.message
      ensures errorCode == httpResult.code
      ensures data == httpResult.data
      ensures log.invoked == old(log.invoked) + MatchingEntries(errorCodeHandle, httpResult.code)
    {
      message := httpResult.message;
      errorCode := httpResult.code;
      data := httpResult.data;
      new;
      var rest := errorCodeHandle.Keys;
      while rest != {}
        invariant rest <= errorCodeHandle.Keys
        invariant log.invoked == old(log.invoked)
          + (if errorCode in errorCodeHandle && errorCode !in rest then [(errorCode, errorCodeHandle[errorCode])] else [])
        invariant errorCode == httpResult.code && message == httpResult.message && data == httpResult.data
        decreases |rest|
      {
        var key :| key in rest;
        if key == errorCode {
          log.Invoke(key, errorCodeHandle[key]);
        }
        rest := rest - {key};
      }
    }
  }
}
