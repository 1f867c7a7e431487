/** The five tools and what a call to one of them asks of the provider:
    the request each helper of server.py (lines 87-203) builds from its
    arguments, and the dispatch of `call_tool` (lines 353-423) that checks
    the arguments and picks the helper. Everything here is a value; the
    module `Server` performs the requests.

    The helpers call `convert_time_to_format` on the schedule they are
    given. Given the clock reading the conversion is a pure function of
    that schedule, so the functions below take its outcome, `converted`,
    as an input and use it exactly where the source makes the call;
    `ToolCall` supplies `Normalize` of the call's `scheduled_at`. */
module EmailTools {
  import opened Wrappers
  import opened Calendar
  import opened TimeText
  import opened Json
  import opened Schedule
  import opened Resend

  /** The `EmailTools` enum (lines 26-38). */
  datatype Tool = SendEmail | MassEmailing | GetEmail | UpdateEmail | CancelEmail {
    /** The enum member's value, the name a client calls the tool by. */
    function Name(): string {
      match this
      case SendEmail => "send_email"
      case MassEmailing => "mass_emailing"
      case GetEmail => "get_email"
      case UpdateEmail => "update_email"
      case CancelEmail => "cancel_email"
    }

    /** The arguments `call_tool` insists are present and truthy. */
    function RequiredFields(): seq<string> {
      match this
      case SendEmail => ["to_email", "subject", "body"]
      case MassEmailing => ["to_email_list", "subject", "body"]
      case _ => ["email_id"]
    }
  }

  /** The `match name` of line 353; `None` is the `case _` of line 422. */
  function Lookup(name: string): (r: Option<Tool>)
    ensures r.Some? ==> r.value.Name() == name
  {
    if name == "send_email" then Some(SendEmail)
    else if name == "mass_emailing" then Some(MassEmailing)
    else if name == "get_email" then Some(GetEmail)
    else if name == "update_email" then Some(UpdateEmail)
    else if name == "cancel_email" then Some(CancelEmail)
    else None
  }

  /** Why a tool call ends in an exception (each of which line 430
      re-raises as a `ValueError`). */
  datatype Error =
      /** "Invalid parameters": a required argument is missing or falsy. */
    | MissingParameter(tool: Tool)
      /** "Invalid tool name". */
    | UnknownTool(name: string)
      /** "RESEND_API_KEY is not set". */
    | MissingCredential
      /** `convert_time_to_format` refused the schedule. */
    | BadSchedule(reason: TimeError)
      /** The `TypeError` of iterating a recipient list that is no list,
          string or dict. */
    | NotIterable
      /** "Failed to ...": the provider raised while handling the call. */
    | ProviderCallFailed(tool: Tool, message: string)

  // ---------------------------------------------------------------------
  // The helpers, as the requests they make

  /** A call of `convert_time_to_format`, its exception taken as the
      tool's. */
  function ScheduleText(converted: Result<string, TimeError>): Result<string, Error> {
    match converted
    case Success(text) => Success(text)
    case Failure(e) => Failure(BadSchedule(e))
  }

  /** The `scheduled_at` of `send_email` and `mass_sending` (lines 95-98,
      129-132): empty without a schedule, converted otherwise. */
  function ScheduledAt(scheduled: Value, converted: Result<string, TimeError>): Result<string, Error> {
    if scheduled.Null? then Success("") else ScheduleText(converted)
  }

  /** `cc = []` / `bcc = []` for a missing list (lines 100-103). */
  function OrEmpty(v: Value): Value {
    if v.Null? then Array([]) else v
  }

  /** `send_email` (lines 87-113): the key check, then the schedule, then
      one message to the one recipient. */
  function SendEmailRequest(
    apiKey: Option<string>, domain: Option<string>, toEmail: Value, subject: Value, body: Value,
    scheduled: Value, converted: Result<string, TimeError>, cc: Value, bcc: Value): (r: Result<Request, Error>)
    ensures r == Failure(MissingCredential) <==> apiKey.None?
    ensures apiKey.Some? ==> (r.Failure? <==> !scheduled.Null? && converted.Failure?)
    ensures r.Failure? && apiKey.Some? ==> r.error == BadSchedule(converted.error)
    ensures r.Success? ==>
      r.value == Request(apiKey.value, EmailsSend(SendParams(
        domain, [toEmail], subject, body, if scheduled.Null? then "" else converted.value,
        if cc.Null? then Array([]) else cc, if bcc.Null? then Array([]) else bcc)))
  {
    if apiKey.None? then Failure(MissingCredential)
    else
      var scheduledAt :- ScheduledAt(scheduled, converted);
      Success(Request(apiKey.value, EmailsSend(
        SendParams(domain, [toEmail], subject, body, scheduledAt, OrEmpty(cc), OrEmpty(bcc)))))
  }

  /** The list the loop of lines 137-144 builds: one message appended per
      recipient, in the order iterated. */
  function BatchFor(
    domain: Option<string>, recipients: seq<Value>, subject: Value, body: Value,
    scheduledAt: string): (batch: seq<BatchParams>)
    ensures |batch| == |recipients|
    ensures forall m <- batch :: |m.to| == 1 && m.subject == subject && m.html == body
  {
    if recipients == [] then []
    else
      var n := |recipients| - 1;
      BatchFor(domain, recipients[..n], subject, body, scheduledAt)
        + [BatchParams(domain, [recipients[n]], subject, body, scheduledAt)]
  }

  /** `mass_sending` (lines 121-144): the key check, then the schedule,
      then the loop over the recipient list. */
  function MassSendingRequest(
    apiKey: Option<string>, domain: Option<string>, toEmailList: Value, subject: Value, body: Value,
    scheduled: Value, converted: Result<string, TimeError>): (r: Result<Request, Error>)
    ensures r == Failure(MissingCredential) <==> apiKey.None?
    ensures apiKey.Some? && !scheduled.Null? && converted.Failure? ==>
      r == Failure(BadSchedule(converted.error))
    ensures apiKey.Some? && (scheduled.Null? || converted.Success?) ==>
      (r.Failure? <==> Iterate(toEmailList).None?) && (r.Failure? ==> r.error == NotIterable)
    ensures r.Success? ==>
      r.value == Request(apiKey.value, BatchSend(BatchFor(
        domain, Iterate(toEmailList).value, subject, body, if scheduled.Null? then "" else converted.value)))
  {
    if apiKey.None? then Failure(MissingCredential)
    else
      var scheduledAt :- ScheduledAt(scheduled, converted);
      match Iterate(toEmailList)
      case None => Failure(NotIterable)
      case Some(recipients) =>
        Success(Request(apiKey.value, BatchSend(BatchFor(domain, recipients, subject, body, scheduledAt))))
  }

  /** `get_email` (lines 152-162). */
  function GetEmailRequest(apiKey: Option<string>, emailId: Value): (r: Result<Request, Error>)
    ensures r == Failure(MissingCredential) <==> apiKey.None?
    ensures r.Success? ==> r.value == Request(apiKey.value, EmailsGet(emailId))
  {
    if apiKey.None? then Failure(MissingCredential)
    else Success(Request(apiKey.value, EmailsGet(emailId)))
  }

  /** `update_email` (lines 167-182): the schedule is converted even when
      none is given. */
  function UpdateEmailRequest(
    apiKey: Option<string>, emailId: Value, converted: Result<string, TimeError>): (r: Result<Request, Error>)
    ensures r == Failure(MissingCredential) <==> apiKey.None?
    ensures apiKey.Some? ==> (r.Failure? <==> converted.Failure?)
    ensures r.Failure? && apiKey.Some? ==> r.error == BadSchedule(converted.error)
    ensures r.Success? ==>
      r.value == Request(apiKey.value, EmailsUpdate(UpdateParams(emailId, converted.value)))
  {
    if apiKey.None? then Failure(MissingCredential)
    else
      var scheduledAt :- ScheduleText(converted);
      Success(Request(apiKey.value, EmailsUpdate(UpdateParams(emailId, scheduledAt))))
  }

  /** `cancel_email` (lines 190-200). */
  function CancelEmailRequest(apiKey: Option<string>, emailId: Value): (r: Result<Request, Error>)
    ensures r == Failure(MissingCredential) <==> apiKey.None?
    ensures r.Success? ==> r.value == Request(apiKey.value, EmailsCancel(emailId))
  {
    if apiKey.None? then Failure(MissingCredential)
    else Success(Request(apiKey.value, EmailsCancel(emailId)))
  }

  /** The tool whose helper makes a call. */
  function ToolOf(call: Call): Tool {
    match call
    case EmailsSend(_) => SendEmail
    case BatchSend(_) => MassEmailing
    case EmailsGet(_) => GetEmail
    case EmailsUpdate(_) => UpdateEmail
    case EmailsCancel(_) => CancelEmail
  }

  /** The helpers' `try`: the provider's answer is the result, and
      anything it raises becomes that tool's failure. */
  function Settle(request: Request, reply: Reply): (r: Result<Value, Error>)
    ensures reply.Returned? ==> r == Success(reply.response)
    ensures reply.Raised? ==> r.Failure? && r.error.ProviderCallFailed? && r.error.tool == ToolOf(request.call)
  {
    match reply
    case Returned(response) => Success(response)
    case Raised(message) => Failure(ProviderCallFailed(ToolOf(request.call), message))
  }

  // ---------------------------------------------------------------------
  // The dispatch

  /** The `cc`/`bcc` that `call_tool` passes: `[]` unless the key is there. */
  function ListArgument(arguments: map<string, Value>, key: string): Value {
    if key in arguments then arguments[key] else Array([])
  }

  /** `call_tool` up to the provider call (lines 353-423): the request it
      makes, or the error it stops with before making one. */
  function ToolCallRequest(
    name: string, arguments: map<string, Value>, apiKey: Option<string>,
    domain: Option<string>, converted: Result<string, TimeError>): (r: Result<Request, Error>)
    ensures r.Success? ==> Admitted(name, arguments) && apiKey.Some? && r.value.apiKey == apiKey.value
  {
    match Lookup(name)
    case None => Failure(UnknownTool(name))
    case Some(SendEmail) =>
      var toEmail, subject, body := Get(arguments, "to_email"), Get(arguments, "subject"), Get(arguments, "body");
      if !Truthy(toEmail) || !Truthy(subject) || !Truthy(body) then Failure(MissingParameter(SendEmail))
      else SendEmailRequest(apiKey, domain, toEmail, subject, body, Get(arguments, "scheduled_at"), converted,
                            ListArgument(arguments, "cc"), ListArgument(arguments, "bcc"))
    case Some(MassEmailing) =>
      var toEmailList, subject, body := Get(arguments, "to_email_list"), Get(arguments, "subject"), Get(arguments, "body");
      if !Truthy(toEmailList) || !Truthy(subject) || !Truthy(body) then Failure(MissingParameter(MassEmailing))
      else MassSendingRequest(apiKey, domain, toEmailList, subject, body, Get(arguments, "scheduled_at"), converted)
    case Some(GetEmail) =>
      var emailId := Get(arguments, "email_id");
      if !Truthy(emailId) then Failure(MissingParameter(GetEmail))
      else GetEmailRequest(apiKey, emailId)
    case Some(UpdateEmail) =>
      var emailId := Get(arguments, "email_id");
      if !Truthy(emailId) then Failure(MissingParameter(UpdateEmail))
      else UpdateEmailRequest(apiKey, emailId, converted)
    case Some(CancelEmail) =>
      var emailId := Get(arguments, "email_id");
      if !Truthy(emailId) then Failure(MissingParameter(CancelEmail))
      else CancelEmailRequest(apiKey, emailId)
  }

  /** `call_tool` with the clock reading written as `nowText`. */
  function ToolCall(
    name: string, arguments: map<string, Value>, apiKey: Option<string>,
    domain: Option<string>, nowText: string): (r: Result<Request, Error>)
    ensures r.Success? ==> Admitted(name, arguments) && apiKey.Some? && r.value.apiKey == apiKey.value
  {
    ToolCallRequest(name, arguments, apiKey, domain, Normalize(Get(arguments, "scheduled_at"), nowText))
  }

  /** The call gets past `call_tool`'s own checks into a helper. */
  predicate Admitted(name: string, arguments: map<string, Value>) {
    Lookup(name).Some? &&
    forall field <- Lookup(name).value.RequiredFields() :: Truthy(Get(arguments, field))
  }

  // ---------------------------------------------------------------------
  // Properties of the dispatch

  /** The five names are exactly the tools' names. */
  lemma LookupFindsEachTool(name: string, tool: Tool)
    ensures Lookup(name) == Some(tool) <==> name == tool.Name()
  {
  }

  /** Any other name is refused before anything else happens. */
  lemma UnknownNameIsRefused(
    name: string, arguments: map<string, Value>, apiKey: Option<string>,
    domain: Option<string>, converted: Result<string, TimeError>)
    requires forall tool: Tool :: name != tool.Name()
    ensures ToolCallRequest(name, arguments, apiKey, domain, converted) == Failure(UnknownTool(name))
  {
    if Lookup(name).Some? {
      LookupFindsEachTool(name, Lookup(name).value);
    }
  }

  /** A known tool stops with a missing-parameter error exactly when one of
      its required arguments is absent or falsy, whatever the API key and
      the schedule. */
  lemma MissingParameterComesFirst(
    tool: Tool, arguments: map<string, Value>, apiKey: Option<string>,
    domain: Option<string>, converted: Result<string, TimeError>)
    ensures ToolCallRequest(tool.Name(), arguments, apiKey, domain, converted) == Failure(MissingParameter(tool))
        <==> !Admitted(tool.Name(), arguments)
  {
    LookupFindsEachTool(tool.Name(), tool);
    var fields := tool.RequiredFields();
    if tool == SendEmail || tool == MassEmailing {
      assert (Truthy(Get(arguments, fields[0])) && Truthy(Get(arguments, fields[1]))
              && Truthy(Get(arguments, fields[2]))) ==> Admitted(tool.Name(), arguments);
    } else {
      assert Truthy(Get(arguments, fields[0])) ==> Admitted(tool.Name(), arguments);
    }
  }

  /** An admitted call reaches its tool's helper with the arguments
      `call_tool` read. */
  lemma AdmittedCallReachesHelper(
    tool: Tool, arguments: map<string, Value>, apiKey: Option<string>,
    domain: Option<string>, converted: Result<string, TimeError>)
    requires Admitted(tool.Name(), arguments)
    ensures ToolCallRequest(tool.Name(), arguments, apiKey, domain, converted) ==
      match tool
      case SendEmail =>
        SendEmailRequest(apiKey, domain, Get(arguments, "to_email"), Get(arguments, "subject"),
          Get(arguments, "body"), Get(arguments, "scheduled_at"), converted,
          ListArgument(arguments, "cc"), ListArgument(arguments, "bcc"))
      case MassEmailing =>
        MassSendingRequest(apiKey, domain, Get(arguments, "to_email_list"), Get(arguments, "subject"),
          Get(arguments, "body"), Get(arguments, "scheduled_at"), converted)
      case GetEmail => GetEmailRequest(apiKey, Get(arguments, "email_id"))
      case UpdateEmail => UpdateEmailRequest(apiKey, Get(arguments, "email_id"), converted)
      case CancelEmail => CancelEmailRequest(apiKey, Get(arguments, "email_id"))
  {
    assert Lookup(tool.Name()) == Some(tool);
    var fields := tool.RequiredFields();
    assert forall k :: 0 <= k < |fields| ==> Truthy(Get(arguments, fields[k]));
    match tool
    case SendEmail =>
    case MassEmailing =>
    case GetEmail =>
    case UpdateEmail =>
    case CancelEmail =>
  }

  /** Once admitted, a call fails for want of a key exactly when no key was
      configured: an empty key string is passed on to the provider, and
      the request goes out under the key configured. */
  lemma CredentialCheckRefusesOnlyNone(
    tool: Tool, arguments: map<string, Value>, apiKey: Option<string>,
    domain: Option<string>, converted: Result<string, TimeError>)
    requires Admitted(tool.Name(), arguments)
    ensures var r := ToolCallRequest(tool.Name(), arguments, apiKey, domain, converted);
      && (r == Failure(MissingCredential) <==> apiKey.None?)
      && (r.Success? ==> r.value.apiKey == apiKey.value && ToolOf(r.value.call) == tool)
  {
    AdmittedCallReachesHelper(tool, arguments, apiKey, domain, converted);
  }

  /** `send_email`'s message: the one recipient, the configured sender,
      the subject and body as given, `cc`/`bcc` defaulting to `[]`, and an
      empty `scheduled_at` unless a schedule is given. */
  lemma SendEmailMessage(
    arguments: map<string, Value>, key: string, domain: Option<string>,
    converted: Result<string, TimeError>)
    requires Admitted("send_email", arguments)
    ensures var r := ToolCallRequest("send_email", arguments, Some(key), domain, converted);
      var scheduled := Get(arguments, "scheduled_at");
      && (r.Success? <==> (scheduled.Null? || converted.Success?))
      && (r.Failure? ==> r.error == BadSchedule(converted.error))
      && (r.Success? ==>
          && r.value.apiKey == key
          && r.value.call.EmailsSend?
          && var p := r.value.call.params;
          && p.from == domain
          && p.to == [Get(arguments, "to_email")]
          && p.subject == Get(arguments, "subject")
          && p.html == Get(arguments, "body")
          && p.scheduledAt == (if scheduled.Null? then "" else converted.value)
          && p.cc == (if "cc" in arguments && !arguments["cc"].Null? then arguments["cc"] else Array([]))
          && p.bcc == (if "bcc" in arguments && !arguments["bcc"].Null? then arguments["bcc"] else Array([])))
  {
    AdmittedCallReachesHelper(SendEmail, arguments, Some(key), domain, converted);
  }

  /** `mass_emailing` sends one message per element the recipient list
      iterates over, in that order, all alike but for the recipient; a
      recipient listed twice is sent to twice. */
  lemma MassEmailingMessages(
    arguments: map<string, Value>, key: string, domain: Option<string>,
    converted: Result<string, TimeError>)
    requires Admitted("mass_emailing", arguments)
    ensures var r := ToolCallRequest("mass_emailing", arguments, Some(key), domain, converted);
      var scheduled := Get(arguments, "scheduled_at");
      var list := Get(arguments, "to_email_list");
      && (r.Success? <==> (scheduled.Null? || converted.Success?) && Iterate(list).Some?)
      && (r.Success? ==>
          && r.value.apiKey == key
          && r.value.call.BatchSend?
          && var batch := r.value.call.batch;
          && Recipients(batch) == Iterate(list).value
          && forall i :: 0 <= i < |batch| ==>
              && batch[i].from == domain
              && batch[i].subject == Get(arguments, "subject")
              && batch[i].html == Get(arguments, "body")
              && batch[i].scheduledAt == (if scheduled.Null? then "" else converted.value))
  {
    AdmittedCallReachesHelper(MassEmailing, arguments, Some(key), domain, converted);
    var scheduled := Get(arguments, "scheduled_at");
    var recipients := Iterate(Get(arguments, "to_email_list"));
    if (scheduled.Null? || converted.Success?) && recipients.Some? {
      BatchReachesEachRecipient(domain, recipients.value, Get(arguments, "subject"), Get(arguments, "body"),
        if scheduled.Null? then "" else converted.value);
    }
  }

  /** The recipient list is not checked to be a list: a string sends one
      message per character, and a truthy number (`int` or `float`) or
      `true` fails only at the loop. */
  lemma RecipientListIsNotChecked(
    arguments: map<string, Value>, key: string, domain: Option<string>,
    converted: Result<string, TimeError>)
    requires Admitted("mass_emailing", arguments) && "scheduled_at" !in arguments
    ensures var list := Get(arguments, "to_email_list");
      var r := ToolCallRequest("mass_emailing", arguments, Some(key), domain, converted);
      && (list.Str? ==> r.Success? && r.value.call.BatchSend? && |r.value.call.batch| == |list.s|)
      && (list.Int? || list.Float? || list.Bool? ==> r == Failure(NotIterable))
  {
    AdmittedCallReachesHelper(MassEmailing, arguments, Some(key), domain, converted);
    var list := Get(arguments, "to_email_list");
    if list.Str? {
      BatchReachesEachRecipient(domain, Iterate(list).value, Get(arguments, "subject"), Get(arguments, "body"), "");
    }
  }

  /** A scheduled time given as the empty string is not "send now" but an
      invalid time format. */
  lemma EmptyScheduleIsRefused(
    arguments: map<string, Value>, key: string, domain: Option<string>, clock: DateTime)
    requires Valid(clock) && Valid(Floor(clock)) && Admitted("send_email", arguments)
    requires "scheduled_at" in arguments && arguments["scheduled_at"] == Str("")
    ensures ToolCall("send_email", arguments, Some(key), domain, IsoFormat(clock))
        == Failure(BadSchedule(InvalidTimeFormat))
  {
    InvalidInputIsRefused(Str(""), clock);
    SendEmailMessage(arguments, key, domain, Normalize(Str(""), IsoFormat(clock)));
  }

  /** `update_email` always sends a schedule: without one it is the clock
      reading plus the lead, in UTC. */
  lemma UpdateWithoutScheduleUsesFloor(
    arguments: map<string, Value>, key: string, domain: Option<string>, clock: DateTime)
    requires Valid(clock) && Valid(Floor(clock)) && Admitted("update_email", arguments)
    requires "scheduled_at" !in arguments
    ensures var r := ToolCall("update_email", arguments, Some(key), domain, IsoFormat(clock));
      && (r.Success? <==> UtcText(Floor(clock)).Success?)
      && (r.Success? ==> r.value == Request(key, EmailsUpdate(
            UpdateParams(Get(arguments, "email_id"), UtcText(Floor(clock)).value))))
  {
    AbsentInputIsFloor(clock);
    AdmittedCallReachesHelper(UpdateEmail, arguments, Some(key), domain, Normalize(Null, IsoFormat(clock)));
  }

  // ---------------------------------------------------------------------
  // The batch

  /** The recipients a batch addresses, message by message. */
  function Recipients(batch: seq<BatchParams>): seq<Value> {
    if batch == [] then [] else Recipients(batch[..|batch| - 1]) + batch[|batch| - 1].to
  }

  /** The batch addresses exactly the recipients iterated, each in a
      message of its own, and nothing else varies between messages. */
  lemma BatchReachesEachRecipient(
    domain: Option<string>, recipients: seq<Value>, subject: Value, body: Value, scheduledAt: string)
    ensures var batch := BatchFor(domain, recipients, subject, body, scheduledAt);
      && |batch| == |recipients|
      && Recipients(batch) == recipients
      && forall i :: 0 <= i < |batch| ==>
          batch[i] == BatchParams(domain, [recipients[i]], subject, body, scheduledAt)
  {
    BatchMessages(domain, recipients, subject, body, scheduledAt);
    BatchRecipients(domain, recipients, subject, body, scheduledAt);
  }

  /** Message `i` of the batch goes to recipient `i` alone. */
  lemma {:induction false} BatchMessages(
    domain: Option<string>, recipients: seq<Value>, subject: Value, body: Value, scheduledAt: string)
    ensures var batch := BatchFor(domain, recipients, subject, body, scheduledAt);
      && |batch| == |recipients|
      && forall i :: 0 <= i < |batch| ==>
          batch[i] == BatchParams(domain, [recipients[i]], subject, body, scheduledAt)
    decreases |recipients|
  {
    if recipients != [] {
      var n := |recipients| - 1;
      BatchMessages(domain, recipients[..n], subject, body, scheduledAt);
    }
  }

  /** Read back message by message, the batch's recipients are the list. */
  lemma {:induction false} BatchRecipients(
    domain: Option<string>, recipients: seq<Value>, subject: Value, body: Value, scheduledAt: string)
    ensures Recipients(BatchFor(domain, recipients, subject, body, scheduledAt)) == recipients
    decreases |recipients|
  {
    if recipients != [] {
      var n := |recipients| - 1;
      var prefix := BatchFor(domain, recipients[..n], subject, body, scheduledAt);
      var batch := prefix + [BatchParams(domain, [recipients[n]], subject, body, scheduledAt)];
      BatchRecipients(domain, recipients[..n], subject, body, scheduledAt);
      assert batch[..|batch| - 1] == prefix;
      assert recipients == recipients[..n] + [recipients[n]];
    }
  }
}
