/**
  The per-request closure of ZapLogger as a step of a state machine. The state
  is the shared Config: its logger (reduced to the context fields attached so
  far) and Skip2XX. Each step takes what one request exposes plus the result of
  the next handler, and produces the new Config and what the step did: the
  errors it forwarded to echo's error handler, the record it wrote, and the
  value it returned.
 */
module Middleware {
  import opened Wrappers
  import opened Zap
  import opened Severity
  import opened Fields

  datatype Config = Config(log: Logger, skip2xx: bool)

  /** One request: what the middleware reads, the elapsed-time string, and the
      next handler's result (None stands for a nil error). */
  datatype Invocation = Invocation(req: Request, res: Response, elapsed: string, next: Option<HandlerError>)

  /** An observable effect of a step: a call of c.Error, or a written record. */
  datatype Event = Forwarded(err: HandlerError) | Logged(entry: Entry)

  /** The effects of one step in order, and the error value it returned. */
  datatype Outcome = Outcome(events: seq<Event>, returned: Option<HandlerError>)

  /** The error the next handler returned, as a list of zero or one. */
  function ErrorsOf(inv: Invocation): seq<HandlerError>
  {
    if inv.next.Some? then [inv.next.value] else []
  }

  function ErrorFields(errs: seq<HandlerError>): seq<Field>
  {
    seq(|errs|, i requires 0 <= i < |errs| => ErrorField(errs[i]))
  }

  function ForwardedErrors(events: seq<Event>): seq<HandlerError>
  {
    if |events| == 0 then []
    else (if events[0].Forwarded? then [events[0].err] else []) + ForwardedErrors(events[1..])
  }

  function Entries(events: seq<Event>): seq<Entry>
  {
    if |events| == 0 then []
    else (if events[0].Logged? then [events[0].entry] else []) + Entries(events[1..])
  }

  /** Every c.Error call happens before any record is written. */
  predicate ForwardsFirst(events: seq<Event>)
  {
    forall i, j :: 0 <= i < j < |events| && events[i].Logged? ==> events[j].Logged?
  }

  /** What a call does once its logger and record fields are fixed: forward the
      handler's error to c.Error, write at most one record, return nil. */
  function Respond(log: Logger, skip2xx: bool, inv: Invocation, fields: seq<Field>): (out: Outcome)
    ensures out.returned == None
    ensures ForwardedErrors(out.events) == ErrorsOf(inv)
    ensures ForwardsFirst(out.events)
    ensures |Entries(out.events)| == if skip2xx && Is2xx(inv.res.status) then 0 else 1
    ensures forall e <- Entries(out.events) ::
      && Classify(inv.res.status, skip2xx) == Some((e.level, e.message))
      && e.context == log.context
      && e.fields == fields
  {
    var forwarded := if inv.next.Some? then [Forwarded(inv.next.value)] else [];
    var logged :=
      match Classify(inv.res.status, skip2xx)
      case None => []
      case Some((level, msg)) => [Logged(Entry(level, msg, log.context, fields))];
    assert ForwardedErrors(logged) == [] && Entries(forwarded) == [];
    EventsAppend(forwarded, logged);
    Outcome(forwarded + logged, None)
  }

  lemma {:induction false} EventsAppend(a: seq<Event>, b: seq<Event>)
    ensures ForwardedErrors(a + b) == ForwardedErrors(a) + ForwardedErrors(b)
    ensures Entries(a + b) == Entries(a) + Entries(b)
  {
    ForwardedAppend(a, b);
    EntriesAppend(a, b);
  }

  lemma {:induction false} ForwardedAppend(a: seq<Event>, b: seq<Event>)
    ensures ForwardedErrors(a + b) == ForwardedErrors(a) + ForwardedErrors(b)
    decreases |a|
  {
    if |a| == 0 {
      assert a + b == b;
    } else {
      var ab := a + b;
      assert ab[0] == a[0] && ab[1..] == a[1..] + b;
      ForwardedAppend(a[1..], b);
    }
  }

  lemma {:induction false} EntriesAppend(a: seq<Event>, b: seq<Event>)
    ensures Entries(a + b) == Entries(a) + Entries(b)
    decreases |a|
  {
    if |a| == 0 {
      assert a + b == b;
    } else {
      var ab := a + b;
      assert ab[0] == a[0] && ab[1..] == a[1..] + b;
      EntriesAppend(a[1..], b);
    }
  }

  /** The shared Config once a call has finished: logger.go assigns the logger
      derived with the handler's error back into the Config. */
  function Next(config: Config, inv: Invocation): (c: Config)
    ensures c.skip2xx == config.skip2xx
    ensures c.log.context == config.log.context + ErrorFields(ErrorsOf(inv))
    ensures inv.next.None? ==> c == config
  {
    if inv.next.Some? then Config(With(config.log, [ErrorField(inv.next.value)]), config.skip2xx)
    else config
  }

  /** One call of the wrapped handler: the new shared Config, and what the call did. */
  function Invoke(config: Config, inv: Invocation): (r: (Config, Outcome))
    ensures r.0.skip2xx == config.skip2xx
    ensures r.0.log.context == config.log.context + ErrorFields(ErrorsOf(inv))
    ensures inv.next.None? ==> r.0 == config
    ensures r.1.returned == None
    ensures ForwardedErrors(r.1.events) == ErrorsOf(inv)
    ensures ForwardsFirst(r.1.events)
    ensures |Entries(r.1.events)| == if config.skip2xx && Is2xx(inv.res.status) then 0 else 1
    ensures forall e <- Entries(r.1.events) ::
      && Classify(inv.res.status, config.skip2xx) == Some((e.level, e.message))
      && e.context == r.0.log.context
      && e.fields == BuildFields(inv.req, inv.res, inv.elapsed)
  {
    var after := Next(config, inv);
    (after, Respond(after.log, config.skip2xx, inv, BuildFields(inv.req, inv.res, inv.elapsed)))
  }

  /** The errors the next handler returned over consecutive calls, in order. */
  function Errors(invs: seq<Invocation>): seq<HandlerError>
    decreases |invs|
  {
    if |invs| == 0 then []
    else Errors(invs[..|invs| - 1]) + ErrorsOf(invs[|invs| - 1])
  }

  lemma ErrorFieldsAppend(a: seq<HandlerError>, b: seq<HandlerError>)
    ensures ErrorFields(a + b) == ErrorFields(a) + ErrorFields(b)
  {
    assert forall i :: 0 <= i < |a + b| ==> ErrorFields(a + b)[i] == (ErrorFields(a) + ErrorFields(b))[i];
  }

  /** The shared Config after consecutive calls: its logger carries one error
      field per failed call, in order, after the fields it started with, and
      Skip2XX never changes. */
  function After(config: Config, invs: seq<Invocation>): (c: Config)
    ensures c.skip2xx == config.skip2xx
    ensures c.log.context == config.log.context + ErrorFields(Errors(invs))
    decreases |invs|
  {
    if |invs| == 0 then config
    else
      var n := |invs| - 1;
      var before := After(config, invs[..n]);
      ErrorFieldsAppend(Errors(invs[..n]), ErrorsOf(invs[n]));
      Next(before, invs[n])
  }

  /** Consecutive calls sharing one Config: the k-th call runs on the Config the
      first k calls left behind. */
  function Run(config: Config, invs: seq<Invocation>): (Config, seq<Outcome>)
  {
    (After(config, invs), seq(|invs|, k requires 0 <= k < |invs| => Invoke(After(config, invs[..k]), invs[k]).1))
  }

  /** Run is Invoke stepped call by call: the Config that Invoke leaves after
      call k is the one After gives for the first k+1 calls. */
  lemma RunIsFold(config: Config, invs: seq<Invocation>, k: int)
    requires 0 <= k < |invs|
    ensures Invoke(After(config, invs[..k]), invs[k]).0 == After(config, invs[..k + 1])
  {
    assert invs[..k + 1][..k] == invs[..k];
  }

  /** The error fields attached after some calls stay attached after more calls. */
  lemma {:induction false} ErrorsPrefix(invs: seq<Invocation>, k: int)
    requires 0 <= k <= |invs|
    ensures Errors(invs[..k]) <= Errors(invs)
    decreases |invs|
  {
    if k < |invs| {
      var n := |invs| - 1;
      assert invs[..n][..k] == invs[..k];
      ErrorsPrefix(invs[..n], k);
    } else {
      assert invs[..k] == invs;
    }
  }

  lemma ErrorFieldsPrefix(a: seq<HandlerError>, b: seq<HandlerError>)
    requires a <= b
    ensures ErrorFields(a) <= ErrorFields(b)
  {
    assert forall i :: 0 <= i < |a| ==> ErrorFields(a)[i] == ErrorFields(b)[i];
  }

  lemma ErrorFieldIn(errs: seq<HandlerError>, err: HandlerError)
    requires err in errs
    ensures ErrorField(err) in ErrorFields(errs)
  {
    var i :| 0 <= i < |errs| && errs[i] == err;
    assert ErrorFields(errs)[i] == ErrorField(err);
  }

  /** Fields on the shared logger are never removed: its context after k calls
      is a prefix of its context after any later number of calls. */
  lemma AfterContextGrows(config: Config, invs: seq<Invocation>, k: int, j: int)
    requires 0 <= k <= j <= |invs|
    ensures After(config, invs[..k]).log.context <= After(config, invs[..j]).log.context
  {
    var prefix := invs[..j];
    assert prefix[..k] == invs[..k];
    ErrorsPrefix(prefix, k);
    ErrorFieldsPrefix(Errors(invs[..k]), Errors(prefix));
  }

  lemma ErrorsSnoc(invs: seq<Invocation>, k: int)
    requires 0 <= k < |invs|
    ensures Errors(invs[..k + 1]) == Errors(invs[..k]) + ErrorsOf(invs[k])
  {
    assert invs[..k + 1][..k] == invs[..k];
  }

  /** Every call of a run returns nil, forwards exactly its own error, and
      writes a record unless Skip2XX suppresses a 2xx status. */
  lemma RunOutcomes(config: Config, invs: seq<Invocation>, k: int)
    requires 0 <= k < |invs|
    ensures var out := Run(config, invs).1[k];
      && out.returned == None
      && ForwardedErrors(out.events) == ErrorsOf(invs[k])
      && (|Entries(out.events)| == 0 <==> config.skip2xx && Is2xx(invs[k].res.status))
      && |Entries(out.events)| <= 1
  {
    assert Run(config, invs).1[k] == Invoke(After(config, invs[..k]), invs[k]).1;
  }

  /** The record of the k-th call carries an error field for each failure so
      far, this call's included, in call order. */
  lemma RunRecordContext(config: Config, invs: seq<Invocation>, k: int)
    requires 0 <= k < |invs|
    ensures forall e <- Entries(Run(config, invs).1[k].events) ::
      e.context == config.log.context + ErrorFields(Errors(invs[..k + 1]))
  {
    var start := After(config, invs[..k]);
    var before := Errors(invs[..k]);
    var own := ErrorsOf(invs[k]);
    ErrorsSnoc(invs, k);
    ErrorFieldsAppend(before, own);
    calc {
      Invoke(start, invs[k]).0.log.context;
      start.log.context + ErrorFields(own);
      (config.log.context + ErrorFields(before)) + ErrorFields(own);
      config.log.context + (ErrorFields(before) + ErrorFields(own));
      config.log.context + ErrorFields(Errors(invs[..k + 1]));
    }
  }

  lemma ErrorsContains(invs: seq<Invocation>, k: int)
    requires 0 <= k < |invs| && invs[k].next.Some?
    ensures invs[k].next.value in Errors(invs)
    decreases |invs|
  {
    var n := |invs| - 1;
    if k < n {
      assert invs[..n][k] == invs[k];
      ErrorsContains(invs[..n], k);
    }
  }

  /** An error returned by the handler on one call is carried by the record of
      every later call in the run, whatever that call's own outcome. */
  lemma ErrorStaysInLaterRecords(config: Config, invs: seq<Invocation>, k: int, j: int)
    requires 0 <= k <= j < |invs|
    requires invs[k].next.Some?
    ensures forall e <- Entries(Run(config, invs).1[j].events) :: ErrorField(invs[k].next.value) in e.context
  {
    RunRecordContext(config, invs, j);
    var prefix := invs[..j + 1];
    assert prefix[k] == invs[k];
    ErrorsContains(prefix, k);
    ErrorFieldIn(Errors(prefix), invs[k].next.value);
  }

  /** A failed request followed by a successful one: the second record, for a
      request whose handler returned nil, still carries the first request's error. */
  lemma ErrorLeaksIntoLaterRequest()
    ensures
      var req := Request("10.0.0.1", "example.org", "GET", "/", "curl", "");
      var boom := HandlerError("boom");
      var first := Invocation(req, Response(500, 0, ""), "1ms", Some(boom));
      var second := Invocation(req, Response(200, 2, ""), "1ms", None);
      var outs := Run(Config(Logger([]), false), [first, second]).1;
      Entries(outs[1].events)
        == [Entry(InfoLevel, "Success", [ErrorField(boom)], BuildFields(req, Response(200, 2, ""), "1ms"))]
  {
    var req := Request("10.0.0.1", "example.org", "GET", "/", "curl", "");
    var boom := HandlerError("boom");
    var first := Invocation(req, Response(500, 0, ""), "1ms", Some(boom));
    var second := Invocation(req, Response(200, 2, ""), "1ms", None);
    var config := Config(Logger([]), false);
    var invs := [first, second];
    assert invs[..1] == [first] && [first][..0] == [];
    var before := After(config, invs[..1]);
    assert Errors([first]) == [boom];
    assert ErrorFields([boom]) == [ErrorField(boom)];
    assert before.log.context == [ErrorField(boom)];
    var es := Entries(Run(config, invs).1[1].events);
    assert es == Entries(Invoke(before, second).1.events);
    assert |es| == 1 && es[0] in es;
    assert Classify(200, false) == Some((es[0].level, es[0].message));
    assert es[0] == Entry(InfoLevel, "Success", [ErrorField(boom)], BuildFields(req, Response(200, 2, ""), "1ms"));
    assert es == [es[0]];
  }
}
