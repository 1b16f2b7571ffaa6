/**
 * `validateRequest` (src/server/middleware/validateRequest.ts): parse the body, then the
 * query, then the params, each with its schema when one is given, replacing each part of the
 * request with the parser's output as soon as it is parsed. The first failure ends the
 * pipeline; parts replaced before it stay replaced.
 */
module ValidateRequest {
  import opened Common
  import opened Http

  /** The optional schema of each part, as its parse function. */
  datatype Schemas<!B, !Q, !P> = Schemas(
    body: Option<B -> Parsed<B>>,
    query: Option<Q -> Parsed<Q>>,
    params: Option<P -> Parsed<P>>)

  /** The 400 response body `{ status, message, errors }`. */
  datatype ErrorReport = ErrorReport(status: string, message: string, errors: seq<Issue>)

  /** The three request parts, as values. */
  datatype RequestParts<B, Q, P> = RequestParts(body: B, query: Q, params: P)

  /** The parts of an Express request that the middleware reassigns. */
  class Request<B, Q, P> {
    var body: B
    var query: Q
    var params: P

    constructor (body: B, query: Q, params: P)
      ensures this.body == body && this.query == query && this.params == params
    {
      this.body := body;
      this.query := query;
      this.params := params;
    }

    function Current(): RequestParts<B, Q, P>
      reads this
    {
      RequestParts(body, query, params)
    }
  }

  /** Parsing one part with an optional schema: no schema leaves it as it is. */
  function ParsePart<T>(schema: Option<T -> Parsed<T>>, value: T): (r: Parsed<T>)
    ensures schema.None? ==> r == Parsed(value)
  {
    match schema
    case None => Parsed(value)
    case Some(parse) => parse(value)
  }

  /** The catch block: a ZodError is answered with 400, any other error goes to `next(error)`. */
  function Failed<T>(p: Parsed<T>): (r: Outcome<ErrorReport>)
    requires !p.Parsed?
    ensures r.Respond? <==> p.Rejected?
    ensures p.Rejected? ==> r == Respond(400, ErrorReport("error", "Invalid request data", p.issues))
    ensures p.Thrown? ==> r == NextError(p.error)
  {
    if p.Rejected? then Respond(400, ErrorReport("error", "Invalid request data", p.issues))
    else NextError(p.error)
  }

  /**
   * The request parts and the outcome the middleware leaves behind: `next()` exactly when
   * every part parsed, and then every part is its parse. A failing part is never replaced.
   */
  function Pipeline<B, Q, P>(s: Schemas<B, Q, P>, parts: RequestParts<B, Q, P>)
    : (r: (RequestParts<B, Q, P>, Outcome<ErrorReport>))
    ensures r.1 == Next <==>
      ParsePart(s.body, parts.body).Parsed? && ParsePart(s.query, parts.query).Parsed?
      && ParsePart(s.params, parts.params).Parsed?
    ensures r.1 == Next ==>
      r.0 == RequestParts(ParsePart(s.body, parts.body).value, ParsePart(s.query, parts.query).value,
                          ParsePart(s.params, parts.params).value)
    ensures !ParsePart(s.body, parts.body).Parsed? ==> r.0.body == parts.body
    ensures !ParsePart(s.query, parts.query).Parsed? ==> r.0.query == parts.query
    ensures !ParsePart(s.params, parts.params).Parsed? ==> r.0.params == parts.params
    ensures !ParsePart(s.body, parts.body).Parsed? ==> r.1 == Failed(ParsePart(s.body, parts.body))
    ensures ParsePart(s.body, parts.body).Parsed? && !ParsePart(s.query, parts.query).Parsed? ==>
      r.1 == Failed(ParsePart(s.query, parts.query))
    ensures (ParsePart(s.body, parts.body).Parsed? && ParsePart(s.query, parts.query).Parsed?
             && !ParsePart(s.params, parts.params).Parsed?) ==>
      r.1 == Failed(ParsePart(s.params, parts.params))
  {
    var b := ParsePart(s.body, parts.body);
    if !b.Parsed? then (parts, Failed(b))
    else
      var q := ParsePart(s.query, parts.query);
      if !q.Parsed? then (parts.(body := b.value), Failed(q))
      else
        var p := ParsePart(s.params, parts.params);
        if !p.Parsed? then (RequestParts(b.value, q.value, parts.params), Failed(p))
        else (RequestParts(b.value, q.value, p.value), Next)
  }

  /** The middleware: assigns each parsed part back to the request in order. */
  method Validate<B, Q, P>(s: Schemas<B, Q, P>, req: Request<B, Q, P>) returns (out: Outcome<ErrorReport>)
    modifies req
    ensures (req.Current(), out) == Pipeline(s, old(req.Current()))
  {
    if s.body.Some? {
      var b := s.body.value(req.body);
      if !b.Parsed? {
        out := Failed(b);
        return;
      }
      req.body := b.value;
    }
    if s.query.Some? {
      var q := s.query.value(req.query);
      if !q.Parsed? {
        out := Failed(q);
        return;
      }
      req.query := q.value;
    }
    if s.params.Some? {
      var p := s.params.value(req.params);
      if !p.Parsed? {
        out := Failed(p);
        return;
      }
      req.params := p.value;
    }
    out := Next;
  }

  // ---------------------------------------------------------------------------------------
  // Properties of the pipeline

  /** When every configured part parses, each is replaced by its output and `next()` is called. */
  lemma AllPartsParsed<B, Q, P>(s: Schemas<B, Q, P>, parts: RequestParts<B, Q, P>)
    requires ParsePart(s.body, parts.body).Parsed?
    requires ParsePart(s.query, parts.query).Parsed?
    requires ParsePart(s.params, parts.params).Parsed?
    ensures Pipeline(s, parts) ==
      (RequestParts(ParsePart(s.body, parts.body).value,
             ParsePart(s.query, parts.query).value,
             ParsePart(s.params, parts.params).value), Next)
  {
  }

  /** Without schemas the request passes unchanged. */
  lemma NoSchemas<B, Q, P>(parts: RequestParts<B, Q, P>)
    ensures Pipeline(Schemas(None, None, None), parts) == (parts, Next)
  {
  }

  /**
   * A body that fails to parse ends the pipeline before the query and the params are looked
   * at: the outcome does not depend on their schemas and nothing is replaced.
   */
  lemma BodyFailureStops<B, Q, P>(s: Schemas<B, Q, P>, parts: RequestParts<B, Q, P>,
                                  q: Option<Q -> Parsed<Q>>, p: Option<P -> Parsed<P>>)
    requires !ParsePart(s.body, parts.body).Parsed?
    ensures Pipeline(s, parts) == Pipeline(s.(query := q, params := p), parts)
    ensures Pipeline(s, parts).0 == parts
    ensures Pipeline(s, parts).1 != Next
  {
  }

  /**
   * A query that fails after the body parsed: the body stays replaced, the query and params
   * are left as they were and the params schema plays no part.
   */
  lemma QueryFailureKeepsBody<B, Q, P>(s: Schemas<B, Q, P>, parts: RequestParts<B, Q, P>, p: Option<P -> Parsed<P>>)
    requires ParsePart(s.body, parts.body).Parsed?
    requires !ParsePart(s.query, parts.query).Parsed?
    ensures Pipeline(s, parts).0 == parts.(body := ParsePart(s.body, parts.body).value)
    ensures Pipeline(s, parts) == Pipeline(s.(params := p), parts)
  {
  }

  /** A params failure keeps the parsed body and query. */
  lemma ParamsFailureKeepsEarlierParts<B, Q, P>(s: Schemas<B, Q, P>, parts: RequestParts<B, Q, P>)
    requires ParsePart(s.body, parts.body).Parsed?
    requires ParsePart(s.query, parts.query).Parsed?
    requires !ParsePart(s.params, parts.params).Parsed?
    ensures Pipeline(s, parts).0 ==
      RequestParts(ParsePart(s.body, parts.body).value, ParsePart(s.query, parts.query).value, parts.params)
  {
  }

  /**
   * The outcome is `next()` exactly when no part failed. Otherwise the first part that fails
   * decides: a ZodError is answered with 400 and that part's issues, and any other error is
   * handed to `next(error)` without a response.
   */
  lemma OutcomeKinds<B, Q, P>(s: Schemas<B, Q, P>, parts: RequestParts<B, Q, P>)
    ensures var out := Pipeline(s, parts).1;
      var b := ParsePart(s.body, parts.body);
      var q := ParsePart(s.query, parts.query);
      var p := ParsePart(s.params, parts.params);
      (out == Next <==> b.Parsed? && q.Parsed? && p.Parsed?)
      && (out.Respond? <==> b.Rejected? || (b.Parsed? && q.Rejected?) || (b.Parsed? && q.Parsed? && p.Rejected?))
      && (b.Rejected? ==> out == Respond(400, ErrorReport("error", "Invalid request data", b.issues)))
      && (b.Thrown? ==> out == NextError(b.error))
      && (b.Parsed? && q.Rejected? ==> out == Respond(400, ErrorReport("error", "Invalid request data", q.issues)))
      && (b.Parsed? && q.Thrown? ==> out == NextError(q.error))
      && (b.Parsed? && q.Parsed? && p.Rejected? ==>
            out == Respond(400, ErrorReport("error", "Invalid request data", p.issues)))
      && (b.Parsed? && q.Parsed? && p.Thrown? ==> out == NextError(p.error))
  {
  }
}
