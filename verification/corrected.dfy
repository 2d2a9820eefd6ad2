/**
  The middleware with its two evident defects corrected: the handler's error is
  attached to a logger derived for the current call only, leaving the shared
  Config untouched, and the resolved request id is logged whichever header it
  came from.
 */
module Corrected {
  import opened Wrappers
  import opened Zap
  import opened Severity
  import opened Fields
  import Middleware

  /** The request id as looked up: the request header, else the response header. */
  function RequestId(req: Request, res: Response): string
  {
    if req.requestIdHeader != "" then req.requestIdHeader else res.requestIdHeader
  }

  /** The record fields with request_id always appended, carrying the resolved id. */
  function ResolvedFields(req: Request, res: Response, elapsed: string): seq<Field>
  {
    FixedFields(req, res, elapsed) + [String(RequestIdKey, RequestId(req, res))]
  }

  /** Always eight distinct keys, the seven fixed ones then request_id; on the
      fallback path the list is the original one. */
  lemma ResolvedFieldsShape(req: Request, res: Response, elapsed: string)
    ensures var r := ResolvedFields(req, res, elapsed);
      && |r| == 8
      && KeysOf(r) == FixedKeys + [RequestIdKey]
      && r[..7] == FixedFields(req, res, elapsed)
      && DistinctKeys(r)
      && (req.requestIdHeader == "" ==> r == BuildFields(req, res, elapsed))
  {
  }

  /** A request id is read back from the record whichever header carried it. */
  lemma ResolvedRequestIdReadBack(req: Request, res: Response, elapsed: string)
    ensures req.requestIdHeader != "" ==>
      ValueOf(ResolvedFields(req, res, elapsed), RequestIdKey) == Some(StringValue(req.requestIdHeader))
    ensures req.requestIdHeader == "" ==>
      ValueOf(ResolvedFields(req, res, elapsed), RequestIdKey) == Some(StringValue(res.requestIdHeader))
  {
    ResolvedFieldsShape(req, res, elapsed);
    ValueOfDistinct(ResolvedFields(req, res, elapsed), 7);
  }

  /** One call: the error field goes on a logger derived for this call, and the
      shared Config is left as it was, so only the outcome is returned. */
  function Invoke(config: Middleware.Config, inv: Middleware.Invocation): (out: Middleware.Outcome)
    ensures out.returned == None
    ensures Middleware.ForwardedErrors(out.events) == Middleware.ErrorsOf(inv)
    ensures |Middleware.Entries(out.events)| == if config.skip2xx && Is2xx(inv.res.status) then 0 else 1
    ensures forall e <- Middleware.Entries(out.events) ::
      && Classify(inv.res.status, config.skip2xx) == Some((e.level, e.message))
      && e.context == config.log.context + Middleware.ErrorFields(Middleware.ErrorsOf(inv))
      && e.fields == ResolvedFields(inv.req, inv.res, inv.elapsed)
  {
    var log := if inv.next.Some? then With(config.log, [ErrorField(inv.next.value)]) else config.log;
    Middleware.Respond(log, config.skip2xx, inv, ResolvedFields(inv.req, inv.res, inv.elapsed))
  }

  /** Consecutive calls: every call runs on the same, unchanged Config. */
  function Run(config: Middleware.Config, invs: seq<Middleware.Invocation>): seq<Middleware.Outcome>
  {
    seq(|invs|, k requires 0 <= k < |invs| => Invoke(config, invs[k]))
  }

  /** No cross-contamination: the outcome of a call depends on that call's
      request alone, not on its position or on the calls around it. */
  lemma RunIndependent(config: Middleware.Config, invs: seq<Middleware.Invocation>,
                       others: seq<Middleware.Invocation>, k: int, j: int)
    requires 0 <= k < |invs| && 0 <= j < |others|
    requires invs[k] == others[j]
    ensures Run(config, invs)[k] == Run(config, others)[j]
  {
  }

  /** A record carries an error field exactly for the errors the logger started
      with and the error of its own call: nothing leaks in from other calls. */
  lemma RunNoLeak(config: Middleware.Config, invs: seq<Middleware.Invocation>, k: int, e: Entry, err: HandlerError)
    requires 0 <= k < |invs|
    requires e in Middleware.Entries(Run(config, invs)[k].events)
    ensures ErrorField(err) in e.context <==> ErrorField(err) in config.log.context || invs[k].next == Some(err)
  {
    var own := Middleware.ErrorFields(Middleware.ErrorsOf(invs[k]));
    assert e.context == config.log.context + own;
    if invs[k].next.Some? {
      assert own == [ErrorField(invs[k].next.value)];
    } else {
      assert own == [];
    }
  }

  /** On the first call, with the id absent from the request header, the
      corrected middleware does exactly what the original does. */
  lemma AgreesOnFirstCall(config: Middleware.Config, inv: Middleware.Invocation)
    requires inv.req.requestIdHeader == ""
    ensures Invoke(config, inv) == Middleware.Invoke(config, inv).1
  {
  }

  lemma {:induction false} NoErrorsNoneCollected(invs: seq<Middleware.Invocation>)
    requires forall k :: 0 <= k < |invs| ==> invs[k].next.None?
    ensures Middleware.Errors(invs) == []
    decreases |invs|
  {
    if |invs| > 0 {
      NoErrorsNoneCollected(invs[..|invs| - 1]);
    }
  }

  /** While no handler has failed, the original middleware's shared Config is
      still the one it started with. */
  lemma ConfigUnchangedWithoutErrors(config: Middleware.Config, invs: seq<Middleware.Invocation>)
    requires forall i :: 0 <= i < |invs| ==> invs[i].next.None?
    ensures Middleware.After(config, invs) == config
  {
    NoErrorsNoneCollected(invs);
    assert Middleware.ErrorFields([]) == [];
  }

  /** While no handler fails and no request carries an id header, the original
      and the corrected middleware produce the same outcomes call for call. */
  lemma AgreesWithoutErrors(config: Middleware.Config, invs: seq<Middleware.Invocation>)
    requires forall k :: 0 <= k < |invs| ==> invs[k].next.None? && invs[k].req.requestIdHeader == ""
    ensures Run(config, invs) == Middleware.Run(config, invs).1
  {
    var outs := Middleware.Run(config, invs).1;
    var fixed := Run(config, invs);
    forall k | 0 <= k < |invs|
      ensures outs[k] == fixed[k]
    {
      AgreesAt(config, invs, k);
    }
  }

  lemma AgreesAt(config: Middleware.Config, invs: seq<Middleware.Invocation>, k: int)
    requires 0 <= k < |invs|
    requires forall i :: 0 <= i < |invs| ==> invs[i].next.None? && invs[i].req.requestIdHeader == ""
    ensures Middleware.Run(config, invs).1[k] == Run(config, invs)[k]
  {
    var prefix := invs[..k];
    assert forall i :: 0 <= i < |prefix| ==> prefix[i] == invs[i];
    ConfigUnchangedWithoutErrors(config, prefix);
    assert Middleware.Run(config, invs).1[k] == Middleware.Invoke(Middleware.After(config, prefix), invs[k]).1;
    AgreesOnFirstCall(config, invs[k]);
  }
}
