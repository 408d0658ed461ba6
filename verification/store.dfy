/**
 What a query against the hosted data store hands back: `{ data, error }`,
 where `data` may be null and `error` is set when the query failed. The store
 itself is outside the model; handlers receive these results as inputs.
 */
module Store {
  import opened Js

  /** A store error: the PostgREST code, its message, and whether the value is an
      `Error` instance (what an `instanceof Error` test sees). */
  datatype StoreError = StoreError(code: string, message: string, isErrorInstance: bool)

  datatype Query<+T> = Data(data: Option<T>) | Failed(error: StoreError)

  /** The store error as a value caught after `throw error`. */
  function AsThrown(e: StoreError): (t: Thrown)
    ensures t.ErrorInstance? <==> e.isErrorInstance
    ensures t.ErrorInstance? ==> t.message == e.message
  {
    if e.isErrorInstance then ErrorInstance(e.message) else OtherValue
  }
}
