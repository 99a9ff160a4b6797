/**
 * `ResultException` of the simple client: the exception raised for a response
 * whose code is not a success, with the code-0/no-data rule of its
 * `handleException`.
 */
module ResultException {
  import opened Wrappers
  import opened JvmText

  /** The response envelope `BaseData`: message, code and the payload (`None` for `null`). */
  datatype BaseData<D> = BaseData(message: Option<string>, code: Int32, data: Option<D>)

  /** `NoDataException`, thrown while constructing for code 0 with no payload. */
  datatype NoDataException = NoDataException(message: Option<string>)

  /** The code whose response must carry a payload. */
  const NoDataCode: Int32 := 0

  /** The code the switch names for other special failures, with no action. */
  const SpecialCode: Int32 := 3

  class ResultException<D> {
    var message: Option<string>
    var errorCode: Int32
    var data: Option<D>

    /** The field copy of the constructor: message, code and payload. */
    constructor (baseResult: BaseData<D>)
      ensures message == baseResult.message
      ensures errorCode == baseResult.code
      ensures data == baseResult.data
    {
      message := baseResult.message;
      errorCode := baseResult.code;
      data := baseResult.data;
    }

    /**
     * `handleException(baseResult)`: the `NoDataException` it throws, if any.
     * Only code 0 without a payload throws; code 3 and every other code do nothing.
     */
    method HandleException(baseResult: BaseData<D>) returns (thrown: Option<NoDataException>)
      ensures thrown.Some? <==> errorCode == NoDataCode && baseResult.data.None?
      ensures thrown.Some? ==> thrown.value.message == baseResult.message
    {
      if errorCode == NoDataCode {
        if baseResult.data.None? {
          return Some(NoDataException(baseResult.message));
        }
      } else if errorCode == SpecialCode {
      }
      return None;
    }
  }

  /**
   * `new ResultException(baseResult)`: the fields are copied, then the
   * exception is either returned or replaced by the `NoDataException` that
   * `handleException` throws.
   */
  method Construct<D>(baseResult: BaseData<D>) returns (r: Result<ResultException<D>, NoDataException>)
    ensures r.Failure? <==> baseResult.code == NoDataCode && baseResult.data.None?
    ensures r.Failure? ==> r.error == NoDataException(baseResult.message)
    ensures r.Success? ==> fresh(r.value)
    ensures r.Success? ==>
      && r.value.message == baseResult.message
      && r.value.errorCode == baseResult.code
      && r.value.data == baseResult.data
  {
    var e := new ResultException(baseResult);
    var thrown := e.HandleException(baseResult);
    if thrown.Some? {
      return Failure(thrown.value);
    }
    return Success(e);
  }
}
