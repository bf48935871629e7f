/**
 * The `POST` handler of src/app/api/newsletter/route.ts: it reads `email` from the JSON body,
 * rejects a missing or blank address, forwards the trimmed address as a form to the newsletter
 * service, and maps the service's answer, or any thrown error, to a status.
 *
 * The request body and the forwarding are parameters: the body is what `request.json()` gives
 * and `send(form)` is how the service's `fetch` ends.
 */
module NewsletterRoute {
  import opened Js

  /** What `await request.json()` gives: it throws, gives `null`, or gives a value whose `email` is read. */
  datatype RequestBody = Unparseable | NullBody | Parsed(email: Value)

  /** How forwarding the form ends: a response with its `ok` flag, or a thrown error. */
  datatype SendOutcome = Answered(ok: bool) | SendFailed

  /** A URL-encoded form, as its list of (name, value) fields. */
  type Form = seq<(string, string)>

  datatype Reply = Reply(status: nat, field: string, text: string)

  const Required := Reply(400, "error", "Email is required.")
  const Unavailable := "Unable to subscribe right now. Please try again."
  const Thanks := Reply(200, "message", "Thanks! Check your inbox to confirm.")

  /** The address is accepted when it is a string that is not blank. */
  predicate ValidEmail(email: Value) {
    email.Str? && Trim(email.s) != ""
  }

  /** `POST(request)`. */
  function HandlePost(body: RequestBody, send: Form -> SendOutcome): Reply {
    match body
    case Unparseable => Reply(500, "error", Unavailable)
    case NullBody => Reply(500, "error", Unavailable)
    case Parsed(email) =>
      if !ValidEmail(email) then Required
      else
        match send([("email", Trim(email.s))])
        case SendFailed => Reply(500, "error", Unavailable)
        case Answered(ok) => if ok then Thanks else Reply(502, "error", Unavailable)
  }

  /**
   * A body that does not parse, or parses to `null`, gives 500; a non-string or blank address 400
   * 'Email is required.'; otherwise a failed send 500, a non-OK answer 502 and an OK one 200 with
   * the confirmation.
   */
  lemma {:induction false} PostStatus(body: RequestBody, send: Form -> SendOutcome)
    ensures var r := HandlePost(body, send);
      (!body.Parsed? ==> r.status == 500) &&
      (body.Parsed? && !ValidEmail(body.email) ==> r == Required) &&
      (body.Parsed? && ValidEmail(body.email) ==>
        var outcome := send([("email", Trim(body.email.s))]);
        (outcome.SendFailed? ==> r.status == 500) &&
        (outcome == Answered(false) ==> r.status == 502) &&
        (outcome == Answered(true) ==> r == Thanks)) &&
      (r.status == 200 <==> r == Thanks) &&
      (r.status != 200 ==> r.field == "error")
  {
  }

  /** A whitespace-only address is rejected like a missing one. */
  lemma {:induction false} BlankEmailRejected(s: string, send: Form -> SendOutcome)
    requires forall i :: 0 <= i < |s| ==> IsSpace(s[i])
    ensures HandlePost(Parsed(Str(s)), send) == Required
  {
  }

  /**
   * Only the one-field form holding the trimmed address is ever sent, and only after the address
   * passed: two senders that agree on that form give the same reply, and a rejected request gives
   * the same reply whatever the sender.
   */
  lemma {:induction false} OnlyTrimmedEmailSent(body: RequestBody, send1: Form -> SendOutcome, send2: Form -> SendOutcome)
    requires body.Parsed? && ValidEmail(body.email) ==>
      send1([("email", Trim(body.email.s))]) == send2([("email", Trim(body.email.s))])
    ensures HandlePost(body, send1) == HandlePost(body, send2)
  {
  }

  /** A confirmation means an accepted address went out and the service answered OK. */
  lemma {:induction false} ConfirmedOnlyAfterOkSend(body: RequestBody, send: Form -> SendOutcome)
    requires HandlePost(body, send).status == 200
    ensures body.Parsed? && ValidEmail(body.email)
    ensures send([("email", Trim(body.email.s))]) == Answered(true)
  {
  }
}
