/** The HTTP handler of lock-salary.js (lines 41-146) around the lock
    engine: the bearer token, the admin check, the body's year and month,
    then one run of the engine, whose outcome becomes a status code and a
    JSON body. */
module HttpAdapter {
  import opened Records
  import opened Auth
  import opened DateKeys
  import opened MonthRange
  import opened LockEngine

  /** The parsed body, with `year` and `month` as `Number(...)` makes them:
      None for NaN (a missing or non-numeric field), otherwise the integer.
      A body that cannot be read or parsed carries the error's message. */
  datatype Body = Unreadable(message: string) | Fields(year: Option<int>, month: Option<int>)

  /** A POST request: its Authorization header, if any, and its body. */
  datatype Request = Request(authorization: Option<string>, body: Body)

  /** The JSON bodies the handler sends: `{error}`, `{error, count}` and
      `{ok: true, cycle_id, inserted}`. */
  datatype Payload =
    | ErrorPayload(error: string)
    | PendingPayload(error: string, count: nat)
    | LockedPayload(cycleId: nat, inserted: nat)

  datatype Response = Response(status: nat, payload: Payload)

  /** `!year` is false: the number is neither NaN nor 0. */
  predicate Truthy(n: Option<int>) {
    n.Some? && n.value != 0
  }

  /** `(req.headers.authorization || '').replace(/^Bearer\s+/i, '')`. */
  function Token(req: Request): (t: string)
    ensures req.authorization.None? ==> t == ""
    ensures req.authorization.Some? && !HasBearerPrefix(req.authorization.value) ==> t == req.authorization.value
  {
    StripBearer(if req.authorization.Some? then req.authorization.value else "")
  }

  /** The checks before the engine runs: refused with a response, or
      admitted with the admin's id and the requested month. */
  datatype Admission = Refused(response: Response) | Admitted(adminId: string, year: int, month: int)

  /** The token, the admin check and the body's fields, in that order. */
  function Admit(svc: AuthService, req: Request): (a: Admission)
    ensures a.Refused? && a.response.status == 401 <==> Token(req) == ""
    ensures a.Refused? && a.response.status == 403 <==> Token(req) != "" && VerifyAdmin(svc, Token(req)).None?
    ensures a.Admitted? <==>
      && Token(req) != "" && VerifyAdmin(svc, Token(req)).Some?
      && req.body.Fields? && Truthy(req.body.year) && Truthy(req.body.month)
    ensures a.Admitted? ==>
      && a.adminId == VerifyAdmin(svc, Token(req)).value && a.adminId != ""
      && a.year == req.body.year.value && a.month == req.body.month.value
    ensures a.Refused? ==> a.response.status in {400, 401, 403} && a.response.payload.ErrorPayload?
  {
    var token := Token(req);
    if token == "" then Refused(Response(401, ErrorPayload("Missing auth token")))
    else
      match VerifyAdmin(svc, token)
      case None => Refused(Response(403, ErrorPayload("Not authorized")))
      case Some(adminId) =>
        VerifyAdminMeaning(svc, token);
        match req.body
        case Unreadable(message) => Refused(Response(400, ErrorPayload(message)))
        case Fields(year, month) =>
          if !Truthy(year) || !Truthy(month) then Refused(Response(400, ErrorPayload("year and month required")))
          else Admitted(adminId, year.value, month.value)
  }

  /** The response for an engine outcome. */
  function Respond(outcome: Outcome): (r: Response)
    ensures r.status == 200 <==> outcome.Locked?
    ensures r.status != 200 ==> r.status == 400
    ensures r.payload.PendingPayload? <==> outcome.PendingAtGate?
    ensures outcome.PendingAtGate? ==> r.payload.count == outcome.count
    ensures outcome.Locked? ==> r.payload == LockedPayload(outcome.cycleId, outcome.inserted)
  {
    match outcome
    case PendingAtGate(count) => Response(400, PendingPayload("Pending attendance approvals exist", count))
    case PendingDuringRun => Response(400, ErrorPayload("Pending attendance found during processing"))
    case Locked(cycleId, inserted) => Response(200, LockedPayload(cycleId, inserted))
  }

  /** What a client can tell from a response about the run. */
  function ReadOutcome(r: Response): Option<Outcome> {
    if r.status == 200 && r.payload.LockedPayload? then Some(Locked(r.payload.cycleId, r.payload.inserted))
    else if r.status == 400 && r.payload.PendingPayload? then Some(PendingAtGate(r.payload.count))
    else if r == Response(400, ErrorPayload("Pending attendance found during processing")) then Some(PendingDuringRun)
    else None
  }

  /** Every outcome can be read back from its response: distinct outcomes
      give distinct responses. */
  lemma RespondReadBack(outcome: Outcome)
    ensures ReadOutcome(Respond(outcome)) == Some(outcome)
  {
  }

  /** One request against a store that holds `cycles`: the response, and
      the engine's run when the checks admitted the request. */
  datatype Handled = Handled(response: Response, run: Option<EngineRun>)

  function HandleSpec(svc: AuthService, req: Request, view: StoreView, cycles: seq<CycleRow>, lockedAt: string): Handled
    requires JoinDatesValid(view.profiles)
  {
    match Admit(svc, req)
    case Refused(response) => Handled(response, None)
    case Admitted(adminId, year, month) =>
      var run := LockSpec(view, year, month, MonthRangeUTC(year, month), adminId, lockedAt, cycles);
      Handled(Respond(run.outcome), Some(run))
  }

  /** The handler: refuse in order a missing token, a caller who is not an
      admin, an unreadable body and a falsy year or month, none of which
      touches the store; otherwise run the engine and report its outcome. */
  method Handle(store: Store, svc: AuthService, req: Request, lockedAt: string) returns (resp: Response)
    requires JoinDatesValid(store.view.profiles)
    modifies store
    ensures var h := HandleSpec(svc, req, store.view, old(store.cycles), lockedAt);
      && resp == h.response
      && (h.run.None? ==>
            store.cycles == old(store.cycles) && store.earnings == old(store.earnings) && store.calls == old(store.calls))
      && (h.run.Some? ==>
            && store.cycles == old(store.cycles) + h.run.value.newCycles
            && store.earnings == old(store.earnings) + h.run.value.newEarnings
            && store.calls == old(store.calls) + h.run.value.calls)
  {
    var auth := if req.authorization.Some? then req.authorization.value else "";
    var token := StripBearer(auth);
    if token == "" {
      return Response(401, ErrorPayload("Missing auth token"));
    }
    var adminId := VerifyAdmin(svc, token);
    if adminId.None? {
      return Response(403, ErrorPayload("Not authorized"));
    }
    match req.body
    case Unreadable(message) =>
      return Response(400, ErrorPayload(message));
    case Fields(year, month) =>
      if !Truthy(year) || !Truthy(month) {
        return Response(400, ErrorPayload("year and month required"));
      }
      var outcome := Lock(store, year.value, month.value, adminId.value, lockedAt);
      resp := Respond(outcome);
  }

  // ---------------------------------------------------------------------------
  // The handler's responses, in terms of the engine

  /** A request without an Authorization header is refused with 401 before
      anything else, and so is one whose header is only the bearer word and
      spaces. */
  lemma MissingHeaderIs401(svc: AuthService, body: Body, view: StoreView, cycles: seq<CycleRow>, lockedAt: string,
                           spaces: string)
    requires JoinDatesValid(view.profiles)
    requires |spaces| > 0 && forall i :: 0 <= i < |spaces| ==> IsJsSpace(spaces[i])
    ensures HandleSpec(svc, Request(None, body), view, cycles, lockedAt) ==
      Handled(Response(401, ErrorPayload("Missing auth token")), None)
    ensures HandleSpec(svc, Request(Some("Bearer" + spaces), body), view, cycles, lockedAt) ==
      Handled(Response(401, ErrorPayload("Missing auth token")), None)
  {
    StripsAnyCaseAndSpaces("Bearer", spaces, "");
    assert "Bearer" + spaces + "" == "Bearer" + spaces;
  }

  /** A pending row at the gate gives 400 with the pending count, and no
      cycle and no earnings are written. */
  lemma PendingGateIs400(svc: AuthService, req: Request, view: StoreView, cycles: seq<CycleRow>, lockedAt: string)
    requires JoinDatesValid(view.profiles)
    requires Admit(svc, req).Admitted? && view.pendingCount > 0
    ensures var h := HandleSpec(svc, req, view, cycles, lockedAt);
      && h.response == Response(400, PendingPayload("Pending attendance approvals exist", view.pendingCount))
      && h.run.Some? && h.run.value.newCycles == [] && h.run.value.newEarnings == []
  {
    var a := Admit(svc, req);
    var p := MonthRangeUTC(a.year, a.month);
    GateRefuses(view, a.year, a.month, ToDateStr(p.start), ToDateStr(p.end), a.adminId, lockedAt, cycles,
                Outcomes(ContextFor(view, p, |cycles| + 1), view.profiles));
  }

  /** A 200 reports the new cycle, numbered after the existing ones and
      locked by the admin for the requested month, and the number of
      earnings rows written, one per profile that earns. */
  lemma OkReportsCycle(svc: AuthService, req: Request, view: StoreView, cycles: seq<CycleRow>, lockedAt: string)
    requires JoinDatesValid(view.profiles)
    ensures var h := HandleSpec(svc, req, view, cycles, lockedAt);
      h.response.status == 200 ==>
        && Admit(svc, req).Admitted? && h.run.Some?
        && h.run.value.newCycles ==
             [CycleRow(|cycles| + 1, Admit(svc, req).year, Admit(svc, req).month, Admit(svc, req).adminId, lockedAt)]
        && h.response.payload == LockedPayload(|cycles| + 1, |h.run.value.newEarnings|)
  {
    var a := Admit(svc, req);
    if a.Admitted? {
      var p := MonthRangeUTC(a.year, a.month);
      var os := Outcomes(ContextFor(view, p, |cycles| + 1), view.profiles);
      GateRefuses(view, a.year, a.month, ToDateStr(p.start), ToDateStr(p.end), a.adminId, lockedAt, cycles, os);
      LockedBatch(view, a.year, a.month, ToDateStr(p.start), ToDateStr(p.end), a.adminId, lockedAt, cycles, os);
      if view.pendingCount == 0 {
        GatePassedCreatesCycle(view, a.year, a.month, ToDateStr(p.start), ToDateStr(p.end), a.adminId, lockedAt, cycles, os);
      }
    }
  }
}
