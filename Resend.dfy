/** The parts of the Resend SDK the server touches: the module-global
    `resend.api_key`, and the five calls it makes with the payloads it
    builds. The provider behind the calls is a collaborator whose
    behaviour is a parameter (`respond`); every call is recorded. */
module Resend {
  import opened Wrappers
  import opened Json

  /** The dict handed to `resend.Emails.send` (server.py lines 105-113). */
  datatype SendParams = SendParams(
    from: Option<string>, to: seq<Value>, subject: Value, html: Value,
    scheduledAt: string, cc: Value, bcc: Value)

  /** One entry of the list handed to `resend.Batch.send` (lines 138-144). */
  datatype BatchParams = BatchParams(
    from: Option<string>, to: seq<Value>, subject: Value, html: Value, scheduledAt: string)

  /** The dict handed to `resend.Emails.update` (lines 179-182). */
  datatype UpdateParams = UpdateParams(id: Value, scheduledAt: string)

  datatype Call =
    | EmailsSend(params: SendParams)
    | BatchSend(batch: seq<BatchParams>)
    | EmailsGet(emailId: Value)
    | EmailsUpdate(update: UpdateParams)
    | EmailsCancel(emailId: Value)

  /** A call together with the API key in force when it was made. */
  datatype Request = Request(apiKey: string, call: Call)

  /** What the provider does with a request: answers, or raises. */
  datatype Reply = Returned(response: Value) | Raised(message: string)

  class Client {
    /** `resend.api_key`. */
    var apiKey: Option<string>
    /** Every request made, oldest first. */
    var log: seq<Request>
    /** The provider's behaviour. */
    const respond: Request -> Reply

    constructor (apiKey: Option<string>, respond: Request -> Reply)
      ensures this.apiKey == apiKey && this.respond == respond && log == []
    {
      this.apiKey := apiKey;
      this.respond := respond;
      log := [];
    }

    /** One SDK call, made with the key currently set. */
    method Perform(call: Call) returns (reply: Reply)
      requires apiKey.Some?
      modifies this`log
      ensures log == old(log) + [Request(apiKey.value, call)]
      ensures reply == respond(Request(apiKey.value, call))
    {
      var request := Request(apiKey.value, call);
      log := log + [request];
      reply := respond(request);
    }
  }
}
