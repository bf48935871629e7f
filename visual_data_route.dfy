/**
 * The `GET` handler of src/app/api/visual-data/route.ts, a proxy that fetches a visual's data file
 * from the one allowed host. The handler is a chain of early returns: the `url` query parameter
 * must be present, parse as a URL, use https and name the allowed host; only then is the upstream
 * file fetched, and its failure status or its body is passed on.
 *
 * URL parsing and the upstream fetch are parameters: `parse(s)` is what `new URL(s)` gives (None
 * when it throws) and `fetch(href)` is the upstream response.
 */
module VisualDataRoute {
  import opened Wrappers
  import opened Js
  import opened JsNumber

  /** The only host the proxy fetches from. */
  const AllowedHost := "tngxrcncslblrarjqtwn.supabase.co"

  const DefaultContentType := "text/csv; charset=utf-8"

  /** The parts of a parsed URL the handler reads. */
  datatype ParsedUrl = ParsedUrl(protocol: string, host: string, href: string)

  /** An upstream response: `ok`, `status`, the `content-type` header if sent, and the body text. */
  datatype Upstream = Upstream(ok: bool, status: nat, contentType: Option<string>, body: string)

  /** The handler's response: a JSON error, or the upstream body passed through. */
  datatype Reply =
    | JsonError(status: nat, error: string)
    | PassThrough(status: nat, body: string, contentType: string, cacheControl: string)

  /** How far the checks get: a rejection, or the URL to fetch. */
  datatype Decision = Reject(reply: Reply) | FetchFrom(href: string)

  /** The checks before the fetch, in source order. */
  function Check(urlParam: Option<string>, parse: string -> Option<ParsedUrl>): Decision {
    if !Truthy(urlParam) then Reject(JsonError(400, "Missing url"))
    else
      match parse(urlParam.value)
      case None => Reject(JsonError(400, "Invalid url"))
      case Some(target) =>
        if target.protocol != "https:" || target.host != AllowedHost then Reject(JsonError(400, "URL not allowed"))
        else FetchFrom(target.href)
  }

  /** The reply built from the upstream response. */
  function Relay(upstream: Upstream): Reply {
    if !upstream.ok then JsonError(upstream.status, "Upstream fetch failed (" + NatText(upstream.status) + ")")
    else PassThrough(200, upstream.body, upstream.contentType.GetOr(DefaultContentType), "no-store")
  }

  /** `GET(request)` for a request whose `url` query parameter is `urlParam`. */
  function HandleGet(urlParam: Option<string>, parse: string -> Option<ParsedUrl>, fetch: string -> Upstream): Reply {
    match Check(urlParam, parse)
    case Reject(reply) => reply
    case FetchFrom(href) => Relay(fetch(href))
  }

  /**
   * A missing or empty parameter gives 400 'Missing url', one that does not parse 400 'Invalid url',
   * one that is not https on the allowed host 400 'URL not allowed'; the upstream is fetched exactly
   * when all three checks pass, at the parsed URL.
   */
  lemma {:induction false} CheckOutcomes(urlParam: Option<string>, parse: string -> Option<ParsedUrl>)
    ensures var d := Check(urlParam, parse);
      (!Truthy(urlParam) ==> d == Reject(JsonError(400, "Missing url"))) &&
      (Truthy(urlParam) && parse(urlParam.value).None? ==> d == Reject(JsonError(400, "Invalid url"))) &&
      ((Truthy(urlParam) && parse(urlParam.value).Some? &&
        (parse(urlParam.value).value.protocol != "https:" || parse(urlParam.value).value.host != AllowedHost))
        ==> d == Reject(JsonError(400, "URL not allowed"))) &&
      (d.FetchFrom? <==> (Truthy(urlParam) && parse(urlParam.value).Some? &&
        parse(urlParam.value).value.protocol == "https:" && parse(urlParam.value).value.host == AllowedHost)) &&
      (d.FetchFrom? ==> d.href == parse(urlParam.value).value.href) &&
      (d.Reject? ==> d.reply.JsonError? && d.reply.status == 400)
  {
  }

  /** A rejected request never reaches the upstream: the reply is the same whatever it would answer. */
  lemma {:induction false} RejectedWithoutFetch(urlParam: Option<string>, parse: string -> Option<ParsedUrl>,
                                                fetch1: string -> Upstream, fetch2: string -> Upstream)
    requires Check(urlParam, parse).Reject?
    ensures HandleGet(urlParam, parse, fetch1) == HandleGet(urlParam, parse, fetch2)
    ensures HandleGet(urlParam, parse, fetch1).status == 400
  {
  }

  /**
   * Once the checks pass, a failed upstream response passes its status on as a JSON error; a
   * successful one is the only way to a 200 reply, which carries the upstream body verbatim, its
   * content type or the CSV default, and 'no-store'.
   */
  lemma {:induction false} GetOutcomes(urlParam: Option<string>, parse: string -> Option<ParsedUrl>, fetch: string -> Upstream)
    ensures var r := HandleGet(urlParam, parse, fetch); var d := Check(urlParam, parse);
      (r.PassThrough? <==> (d.FetchFrom? && fetch(d.href).ok)) &&
      (d.FetchFrom? && !fetch(d.href).ok ==> r.JsonError? && r.status == fetch(d.href).status) &&
      (r.PassThrough? ==>
        r.status == 200 && r.body == fetch(d.href).body && r.cacheControl == "no-store" &&
        r.contentType == fetch(d.href).contentType.GetOr(DefaultContentType))
  {
  }

  /** The error message names the upstream status, which reads back from its digits. */
  lemma {:induction false} RelayNamesStatus(upstream: Upstream)
    requires !upstream.ok
    ensures var e := Relay(upstream).error;
      var digits := e[23..|e| - 1];
      e[..23] == "Upstream fetch failed (" && DigitsValue(digits) == upstream.status
  {
    var e := Relay(upstream).error;
    var prefix := "Upstream fetch failed (";
    assert |prefix| == 23;
    NatTextValue(upstream.status);
    assert e[23..|e| - 1] == NatText(upstream.status);
  }
}
