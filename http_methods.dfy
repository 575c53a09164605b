/**
 * The method allow-list middleware (middlewares/checkHttpMethod.middleware.ts)
 * and the allow-lists the three routes install.
 */
module HttpMethods {
  import opened ResponseErrors

  const InvestmentsMethods: seq<string> := ["GET", "POST"]
  const InvestmentsStatsMethods: seq<string> := ["GET"]
  const AuthMethods: seq<string> := ["POST"]

  /** `checkHttpMethods(methods)` applied to a request whose method is `verb`. */
  function CheckHttpMethods(methods: seq<string>, verb: string): (r: Next)
    ensures r.Proceed? <==> exists i :: 0 <= i < |methods| && methods[i] == verb
    ensures r.Fail? ==> r.error == ResponseError(405, "Method not allowed.")
  {
    if verb in methods then Proceed else Fail(ResponseError(405, "Method not allowed."))
  }

  /** Which methods each route lets through, and that the match is case-sensitive. */
  lemma RouteAllowLists(verb: string)
    ensures CheckHttpMethods(InvestmentsMethods, verb).Proceed? <==> verb == "GET" || verb == "POST"
    ensures CheckHttpMethods(InvestmentsStatsMethods, verb).Proceed? <==> verb == "GET"
    ensures CheckHttpMethods(AuthMethods, verb).Proceed? <==> verb == "POST"
    ensures CheckHttpMethods(InvestmentsMethods, "get").Fail?
  {
    assert InvestmentsMethods[0] == "GET" && InvestmentsMethods[1] == "POST";
    assert InvestmentsStatsMethods[0] == "GET" && AuthMethods[0] == "POST";
    assert "get" != "GET" by { assert "get"[0] != "GET"[0]; }
    assert "get" != "POST" by { assert "get"[0] != "POST"[0]; }
  }

  /** Widening the allow-list never rejects a method it used to pass. */
  lemma CheckHttpMethodsMonotone(methods: seq<string>, more: seq<string>, verb: string)
    requires CheckHttpMethods(methods, verb).Proceed?
    ensures CheckHttpMethods(methods + more, verb).Proceed?
  {
    var i :| 0 <= i < |methods| && methods[i] == verb;
    assert (methods + more)[i] == verb;
  }
}
