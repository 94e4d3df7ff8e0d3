/** The pre-check `is404` and the branch logic of `connect_to` in main.py.
    The HTTP request and the browser are not modelled: their outcomes are
    inputs. */
module Fetch {

  datatype Option<T> = None | Some(value: T)

  /** What `requests.get(url)` produced: a response with its status code, or a
      `RequestException` (connection failure, timeout, invalid URL, ...). */
  datatype HttpOutcome = Response(status: int) | RequestFailed(reason: string)

  /** The exception objects `is404` returns. */
  datatype Raised = HTTPError(status: int) | RequestException(reason: string)

  /** The Python values `is404` could hand back, and one it never does (`str`,
      the type `connect_to` tests for). */
  datatype PyValue = Bool(b: bool) | Exception(e: Raised) | Str(s: string)

  /** `response.raise_for_status()` raises for 4xx client and 5xx server
      errors and lets every other status through (the rule of the `requests`
      library). A 404 therefore reaches the `HTTPError` handler, and a 2xx
      success never does. */
  predicate RaisesForStatus(status: int)
    ensures status == 404 ==> RaisesForStatus(status)
    ensures 200 <= status < 300 ==> !RaisesForStatus(status)
  {
    400 <= status < 600
  }

  /** The three-way result of `is404`: `True` for a 404, `False` for a response
      that passed `raise_for_status`, the exception object for every other
      failure. It never returns a string. */
  function Is404(o: HttpOutcome): (v: PyValue)
    ensures !v.Str?
    ensures v == Bool(true) <==> o == Response(404)
    ensures v == Bool(false) <==> o.Response? && !RaisesForStatus(o.status)
    ensures v.Exception? <==> o.RequestFailed? || (RaisesForStatus(o.status) && o.status != 404)
  {
    match o
    case Response(code) =>
      if RaisesForStatus(code) then
        if code == 404 then Bool(true) else Exception(HTTPError(code))
      else
        Bool(false)
    case RequestFailed(reason) => Exception(RequestException(reason))
  }

  /** Python truthiness of the values above; an exception object has no
      `__bool__` or `__len__`, so it is truthy. */
  predicate Truthy(v: PyValue)
  {
    match v
    case Bool(b) => b
    case Exception(_) => true
    case Str(s) => s != ""
  }

  /** `connect_to(url, driver)`: `None` when the pre-check result is truthy (a
      404 and any other failure alike), `None` when the card marker does not
      appear within the wait, the page source otherwise. `markerFound` and
      `pageSource` stand for the browser's outcome after `driver.get(url)`. */
  function ConnectTo(o: HttpOutcome, markerFound: bool, pageSource: string): (page: Option<string>)
    ensures Truthy(Is404(o)) ==> page == None
    ensures page.Some? <==> o.Response? && !RaisesForStatus(o.status) && markerFound
    ensures page.Some? ==> page.value == pageSource
  {
    var status := Is404(o);
    if Truthy(status) then None
    else if status.Str? then None
    else if !markerFound then None
    else Some(pageSource)
  }
}
