/**
 * `CheckExistMiddleware`: refuses a request whose route parameter names no
 * existing record, consulting the service's `exists` (here `recordExists`).
 */
module CheckExist {
  import opened Common
  import opened Http

  const IdRequiredMessage: string := "ID is required"
  const NotFoundMessage: string := "Not found"

  /**
   * The middleware as constructed: the service's `exists` (here `recordExists`,
   * `None` when its promise rejects) and the name of the route parameter.
   */
  datatype CheckExistMiddleware = CheckExistMiddleware(recordExists: string -> Option<bool>, idParam: string)

  /** `req.params[idParam]`: `undefined` when the route has no such parameter. */
  function RouteParam(params: map<string, string>, name: string): Option<string> {
    if name in params then Some(params[name]) else None
  }

  /**
   * `execute`: a missing or empty id is a 400 and the service is not asked; an
   * id the service does not know is a 404; a known id passes with `next()`; a
   * rejected lookup escapes `execute`, which then neither answers nor passes on.
   */
  function Execute(middleware: CheckExistMiddleware, params: map<string, string>): (r: Decision)
    ensures r.consulted.Some? <==> middleware.idParam in params && params[middleware.idParam] != ""
    ensures r.consulted.Some? ==> r.consulted.value == params[middleware.idParam]
    ensures r.consulted.None? ==> r.action == Respond(400, IdRequiredMessage)
    ensures r.action == Respond(404, NotFoundMessage) <==>
              r.consulted.Some? && middleware.recordExists(r.consulted.value) == Some(false)
    ensures r.action.Next? <==> r.consulted.Some? && middleware.recordExists(r.consulted.value) == Some(true)
    ensures r.action.Unanswered? <==> r.consulted.Some? && middleware.recordExists(r.consulted.value).None?
  {
    match RouteParam(params, middleware.idParam)
    case None => Decision(None, Respond(400, IdRequiredMessage))
    case Some(id) =>
      if id == "" then Decision(None, Respond(400, IdRequiredMessage))
      else
        match middleware.recordExists(id)
        case None => Decision(Some(id), Unanswered)
        case Some(false) => Decision(Some(id), Respond(404, NotFoundMessage))
        case Some(true) => Decision(Some(id), Next)
  }
}
