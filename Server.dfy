/** The server's effects: each helper of server.py stores the key in
    `resend.api_key` and makes at most one SDK call; `CallTool` is the
    dispatch of `call_tool`. Each method is proved to do what the
    corresponding function of `EmailTools` describes.

    `nowText` is the clock reading as `datetime.now().isoformat()` writes
    it; `Schedule` states what the conversion does when it is
    `IsoFormat(clock)`. */
module Server {
  import opened Wrappers
  import opened Json
  import opened Schedule
  import opened Resend
  import EmailTools

  /** `outcome` and the request log are those `expected` describes: no
      request on an error before the SDK call, and otherwise exactly the
      one request, settled by the provider's reply. */
  predicate Performed(
    expected: Result<Request, EmailTools.Error>, before: seq<Request>, after: seq<Request>,
    respond: Request -> Reply, outcome: Result<Value, EmailTools.Error>)
  {
    match expected
    case Failure(e) => after == before && outcome == Failure(e)
    case Success(request) =>
      after == before + [request] && outcome == EmailTools.Settle(request, respond(request))
  }

  /** `send_email` (lines 87-119). */
  method SendEmail(
    client: Client, apiKey: Option<string>, domain: Option<string>, toEmail: Value,
    subject: Value, body: Value, scheduled: Value, cc: Value, bcc: Value, nowText: string)
    returns (outcome: Result<Value, EmailTools.Error>)
    modifies client
    ensures client.apiKey == apiKey
    ensures Performed(
      EmailTools.SendEmailRequest(apiKey, domain, toEmail, subject, body, scheduled,
        Normalize(scheduled, nowText), cc, bcc),
      old(client.log), client.log, client.respond, outcome)
  {
    client.apiKey := apiKey;
    if client.apiKey.None? {
      return Failure(EmailTools.MissingCredential);
    }
    var scheduledAt := "";
    if !scheduled.Null? {
      var converted := Normalize(scheduled, nowText);
      if converted.Failure? {
        return Failure(EmailTools.BadSchedule(converted.error));
      }
      scheduledAt := converted.value;
    }
    var ccList := if cc.Null? then Array([]) else cc;
    var bccList := if bcc.Null? then Array([]) else bcc;
    var call := EmailsSend(SendParams(domain, [toEmail], subject, body, scheduledAt, ccList, bccList));
    var reply := client.Perform(call);
    outcome := EmailTools.Settle(Request(apiKey.value, call), reply);
  }

  /** The loop of lines 135-144: one message per recipient, appended in
      the order iterated. */
  method BuildBatch(
    domain: Option<string>, recipients: seq<Value>, subject: Value, body: Value, scheduledAt: string)
    returns (batch: seq<BatchParams>)
    ensures batch == EmailTools.BatchFor(domain, recipients, subject, body, scheduledAt)
    ensures |batch| == |recipients| && EmailTools.Recipients(batch) == recipients
    ensures forall i :: 0 <= i < |batch| ==>
      batch[i] == BatchParams(domain, [recipients[i]], subject, body, scheduledAt)
  {
    batch := [];
    for i := 0 to |recipients|
      invariant batch == EmailTools.BatchFor(domain, recipients[..i], subject, body, scheduledAt)
    {
      assert recipients[..i + 1][..i] == recipients[..i];
      batch := batch + [BatchParams(domain, [recipients[i]], subject, body, scheduledAt)];
    }
    assert recipients[..|recipients|] == recipients;
    EmailTools.BatchReachesEachRecipient(domain, recipients, subject, body, scheduledAt);
  }

  /** `mass_sending` (lines 121-150). */
  method MassSending(
    client: Client, apiKey: Option<string>, domain: Option<string>, toEmailList: Value,
    subject: Value, body: Value, scheduled: Value, nowText: string)
    returns (outcome: Result<Value, EmailTools.Error>)
    modifies client
    ensures client.apiKey == apiKey
    ensures Performed(
      EmailTools.MassSendingRequest(apiKey, domain, toEmailList, subject, body, scheduled,
        Normalize(scheduled, nowText)),
      old(client.log), client.log, client.respond, outcome)
  {
    client.apiKey := apiKey;
    if client.apiKey.None? {
      return Failure(EmailTools.MissingCredential);
    }
    var scheduledAt := if scheduled.Null? then Success("") else EmailTools.ScheduleText(Normalize(scheduled, nowText));
    var recipients := Iterate(toEmailList);
    if scheduledAt.Failure? {
      outcome := Failure(scheduledAt.error);
    } else if recipients.None? {
      outcome := Failure(EmailTools.NotIterable);
    } else {
      var batch := BuildBatch(domain, recipients.value, subject, body, scheduledAt.value);
      var reply := client.Perform(BatchSend(batch));
      outcome := EmailTools.Settle(Request(apiKey.value, BatchSend(batch)), reply);
    }
  }

  /** `get_email` (lines 152-165). */
  method GetEmail(client: Client, apiKey: Option<string>, emailId: Value)
    returns (outcome: Result<Value, EmailTools.Error>)
    modifies client
    ensures client.apiKey == apiKey
    ensures Performed(EmailTools.GetEmailRequest(apiKey, emailId),
      old(client.log), client.log, client.respond, outcome)
  {
    client.apiKey := apiKey;
    if client.apiKey.None? {
      return Failure(EmailTools.MissingCredential);
    }
    var reply := client.Perform(EmailsGet(emailId));
    outcome := EmailTools.Settle(Request(apiKey.value, EmailsGet(emailId)), reply);
  }

  /** `update_email` (lines 167-188). */
  method UpdateEmail(client: Client, apiKey: Option<string>, emailId: Value, scheduled: Value, nowText: string)
    returns (outcome: Result<Value, EmailTools.Error>)
    modifies client
    ensures client.apiKey == apiKey
    ensures Performed(EmailTools.UpdateEmailRequest(apiKey, emailId, Normalize(scheduled, nowText)),
      old(client.log), client.log, client.respond, outcome)
  {
    client.apiKey := apiKey;
    if client.apiKey.None? {
      return Failure(EmailTools.MissingCredential);
    }
    var converted := Normalize(scheduled, nowText);
    if converted.Failure? {
      return Failure(EmailTools.BadSchedule(converted.error));
    }
    var call := EmailsUpdate(UpdateParams(emailId, converted.value));
    var reply := client.Perform(call);
    outcome := EmailTools.Settle(Request(apiKey.value, call), reply);
  }

  /** `cancel_email` (lines 190-203). */
  method CancelEmail(client: Client, apiKey: Option<string>, emailId: Value)
    returns (outcome: Result<Value, EmailTools.Error>)
    modifies client
    ensures client.apiKey == apiKey
    ensures Performed(EmailTools.CancelEmailRequest(apiKey, emailId),
      old(client.log), client.log, client.respond, outcome)
  {
    client.apiKey := apiKey;
    if client.apiKey.None? {
      return Failure(EmailTools.MissingCredential);
    }
    var reply := client.Perform(EmailsCancel(emailId));
    outcome := EmailTools.Settle(Request(apiKey.value, EmailsCancel(emailId)), reply);
  }

  /** `call_tool` (lines 353-423) for the server started with `apiKey` and
      `domain`: the key is stored only once a helper is reached. */
  method CallTool(
    client: Client, name: string, arguments: map<string, Value>, apiKey: Option<string>,
    domain: Option<string>, nowText: string)
    returns (outcome: Result<Value, EmailTools.Error>)
    modifies client
    ensures Performed(EmailTools.ToolCall(name, arguments, apiKey, domain, nowText),
      old(client.log), client.log, client.respond, outcome)
    ensures client.apiKey == if EmailTools.Admitted(name, arguments) then apiKey else old(client.apiKey)
  {
    var found := EmailTools.Lookup(name);
    if found.None? {
      return Failure(EmailTools.UnknownTool(name));
    }
    var tool := found.value;
    var scheduled := Get(arguments, "scheduled_at");
    ghost var converted := Normalize(scheduled, nowText);
    EmailTools.MissingParameterComesFirst(tool, arguments, apiKey, domain, converted);
    if tool.SendEmail? {
      var toEmail, subject, body := Get(arguments, "to_email"), Get(arguments, "subject"), Get(arguments, "body");
      if !Truthy(toEmail) || !Truthy(subject) || !Truthy(body) {
        return Failure(EmailTools.MissingParameter(tool));
      }
      EmailTools.AdmittedCallReachesHelper(tool, arguments, apiKey, domain, converted);
      var cc := if "cc" in arguments then arguments["cc"] else Array([]);
      var bcc := if "bcc" in arguments then arguments["bcc"] else Array([]);
      outcome := SendEmail(client, apiKey, domain, toEmail, subject, body, scheduled, cc, bcc, nowText);
    } else if tool.MassEmailing? {
      var toEmailList, subject, body := Get(arguments, "to_email_list"), Get(arguments, "subject"), Get(arguments, "body");
      if !Truthy(toEmailList) || !Truthy(subject) || !Truthy(body) {
        return Failure(EmailTools.MissingParameter(tool));
      }
      EmailTools.AdmittedCallReachesHelper(tool, arguments, apiKey, domain, converted);
      outcome := MassSending(client, apiKey, domain, toEmailList, subject, body, scheduled, nowText);
    } else {
      var emailId := Get(arguments, "email_id");
      if !Truthy(emailId) {
        return Failure(EmailTools.MissingParameter(tool));
      }
      EmailTools.AdmittedCallReachesHelper(tool, arguments, apiKey, domain, converted);
      if tool.GetEmail? {
        outcome := GetEmail(client, apiKey, emailId);
      } else if tool.UpdateEmail? {
        outcome := UpdateEmail(client, apiKey, emailId, scheduled, nowText);
      } else {
        outcome := CancelEmail(client, apiKey, emailId);
      }
    }
  }
}
