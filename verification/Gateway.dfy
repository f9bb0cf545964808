/** The write path of the Tool Gateway and the Action Ledger it fills. */
module Gateway {
  import opened Wrappers
  import opened JsonTrees

  const WRITE_TOOLS: set<string> := {"join_queue", "reserve_restaurant", "book_ticket", "order_addon", "send_message"}

  /** Statuses of ledger rows, of gateway replies and of action results. */
  datatype Status = Pending | Succeeded | IdempotentReplay | Failed | Blocked | RateLimited | Skipped

  predicate IsSuccess(status: Status) {
    status.Succeeded? || status.IdempotentReplay?
  }

  predicate IsFailure(status: Status) {
    status.Failed? || status.Blocked? || status.RateLimited?
  }

  /** The codes of the recorded errors. */
  datatype Fault =
    | UnknownProvider
    | WriteNotConfirmed
    | MissingWriteFields
    | RateLimitExceeded
    | ProviderError(detail: string)

  datatype LedgerRow = LedgerRow(
    runId: string, tool: string, target: string,
    status: Status, response: Option<Json>, fault: Option<Fault>)

  /** Rows by idempotency key, which is unique across all runs. */
  type Ledger = map<string, LedgerRow>

  datatype WriteRequest = WriteRequest(
    runId: string, tool: string, payload: Json, provider: string,
    userConfirmed: bool, target: string, key: string)

  datatype Reply = Reply(status: Status, response: Option<Json>, fault: Option<Fault>)

  datatype Answer = Accepted(response: Json) | Raised(detail: string)

  /**
   * The outside during one attempt: registered providers, the rate limiter, and what providers answer. Whether the
   * limiter refuses a request may depend on the requests it was asked about since the attempt began, refused ones
   * included.
   */
  datatype World = World(
    providers: set<string>, limits: (seq<WriteRequest>, WriteRequest) -> bool, answer: WriteRequest -> Answer)

  /** What outlives an attempt: the ledger, and every provider invocation ever made. */
  datatype Effects = Effects(ledger: Ledger, calls: seq<WriteRequest>)

  function OpenRow(e: Effects, r: WriteRequest): Effects {
    e.(ledger := e.ledger[r.key := LedgerRow(r.runId, r.tool, r.target, Pending, None, None)])
  }

  function CallProvider(e: Effects, r: WriteRequest): Effects {
    e.(calls := e.calls + [r])
  }

  function SettledRow(r: WriteRequest, answer: Answer): LedgerRow {
    match answer
    case Accepted(response) => LedgerRow(r.runId, r.tool, r.target, Succeeded, Some(response), None)
    case Raised(detail) => LedgerRow(r.runId, r.tool, r.target, Failed, None, Some(ProviderError(detail)))
  }

  function CloseRow(e: Effects, r: WriteRequest, answer: Answer): Effects {
    e.(ledger := e.ledger[r.key := SettledRow(r, answer)])
  }

  predicate MayBeCalled(r: WriteRequest, world: World) {
    r.provider in world.providers && r.userConfirmed && r.target != "" && r.key != ""
  }

  /** The guards before a provider is called, in their order; None when the call goes ahead. */
  function Refusal(e: Effects, asked: seq<WriteRequest>, r: WriteRequest, world: World): Option<Reply> {
    if r.provider !in world.providers then Some(Reply(Failed, None, Some(UnknownProvider)))
    else if !r.userConfirmed then Some(Reply(Blocked, None, Some(WriteNotConfirmed)))
    else if r.target == "" || r.key == "" then Some(Reply(Failed, None, Some(MissingWriteFields)))
    else if r.key in e.ledger then
      Some(Reply(IdempotentReplay, e.ledger[r.key].response, e.ledger[r.key].fault))
    else if world.limits(asked, r) then Some(Reply(RateLimited, None, Some(RateLimitExceeded)))
    else None
  }

  /** What the limiter has been asked after the request: the guards before it and replays do not reach it. */
  function Asked(e: Effects, asked: seq<WriteRequest>, r: WriteRequest, world: World): seq<WriteRequest> {
    if MayBeCalled(r, world) && r.key !in e.ledger then asked + [r] else asked
  }

  /** `ToolGateway.invoke` for a registered write tool. */
  function Invoke(e: Effects, asked: seq<WriteRequest>, r: WriteRequest, world: World): (Effects, Reply) {
    match Refusal(e, asked, r, world)
    case Some(reply) => (e, reply)
    case None =>
      var row := SettledRow(r, world.answer(r));
      (CloseRow(CallProvider(OpenRow(e, r), r), r, world.answer(r)), Reply(row.status, row.response, row.fault))
  }

  /** The effects of an invocation that is cut off while its row is still pending. */
  function CutOff(e: Effects, r: WriteRequest, providerCalled: bool): Effects {
    if providerCalled then CallProvider(OpenRow(e, r), r) else OpenRow(e, r)
  }

  // ---- rate limits -------------------------------------------------------------------------------

  /** The requests for one tool of one provider among those that the limiter was asked about. */
  function CountAsked(asked: seq<WriteRequest>, provider: string, tool: string): nat {
    if asked == [] then 0
    else
      var last := asked[|asked| - 1];
      CountAsked(asked[..|asked| - 1], provider, tool) + if last.provider == provider && last.tool == tool then 1 else 0
  }

  const RESERVATIONS_PER_WINDOW := 3

  /**
   * `FixedWindowRateLimiter` within one window, of which `used` tells what every provider's counter had reached before:
   * every question raises the counter, and the one write tool with a limit is refused beyond it.
   */
  predicate WindowFull(used: map<string, nat>, asked: seq<WriteRequest>, r: WriteRequest) {
    var before := if r.provider in used then used[r.provider] else 0;
    r.tool == "reserve_restaurant" && before + CountAsked(asked, r.provider, r.tool) + 1 > RESERVATIONS_PER_WINDOW
  }

  function FixedWindow(used: map<string, nat>): (seq<WriteRequest>, WriteRequest) -> bool {
    (asked, r) => WindowFull(used, asked, r)
  }

  /** The places of the requests for that tool of that provider. */
  ghost function PlacesOf(asked: seq<WriteRequest>, provider: string, tool: string): set<nat> {
    set i: nat | i < |asked| && asked[i].provider == provider && asked[i].tool == tool
  }

  lemma {:induction false} CountedExactly(asked: seq<WriteRequest>, provider: string, tool: string)
    ensures CountAsked(asked, provider, tool) == |PlacesOf(asked, provider, tool)|
  {
    if asked != [] {
      var last := |asked| - 1;
      CountedExactly(asked[..last], provider, tool);
      var before := PlacesOf(asked[..last], provider, tool);
      assert last !in before;
      assert PlacesOf(asked, provider, tool)
        == before + if asked[last].provider == provider && asked[last].tool == tool then {last} else {};
    }
  }

  /** Only reservations are limited: after three of a provider in the window, every further one is refused. */
  lemma {:induction false} LimitedExactly(used: map<string, nat>, asked: seq<WriteRequest>, r: WriteRequest)
    ensures FixedWindow(used)(asked, r) <==>
            && r.tool == "reserve_restaurant"
            && (if r.provider in used then used[r.provider] else 0)
               + |PlacesOf(asked, r.provider, "reserve_restaurant")| >= 3
  {
    CountedExactly(asked, r.provider, r.tool);
  }

  /** Having been asked more often before never makes the limiter let a request through. */
  ghost predicate NeverRelaxes(world: World) {
    forall more, asked, r :: world.limits(asked, r) ==> world.limits(more + asked, r)
  }

  lemma {:induction false} CountGrows(more: seq<WriteRequest>, asked: seq<WriteRequest>, provider: string, tool: string)
    ensures CountAsked(more + asked, provider, tool) >= CountAsked(asked, provider, tool)
  {
    if asked != [] {
      assert (more + asked)[..|more + asked| - 1] == more + asked[..|asked| - 1];
      CountGrows(more, asked[..|asked| - 1], provider, tool);
    }
  }

  lemma {:induction false} FixedWindowNeverRelaxes(world: World, used: map<string, nat>)
    requires world.limits == FixedWindow(used)
    ensures NeverRelaxes(world)
  {
    forall more, asked, r | world.limits(asked, r) ensures world.limits(more + asked, r) {
      CountGrows(more, asked, r.provider, r.tool);
    }
  }

  /** The outside as it goes on after the limiter has been asked some more. */
  function Later(world: World, asked: seq<WriteRequest>): World {
    world.(limits := (more, r) => world.limits(asked + more, r))
  }

  lemma {:induction false} InvokeLater(
      e: Effects, asked: seq<WriteRequest>, more: seq<WriteRequest>, r: WriteRequest, world: World)
    ensures Invoke(e, asked + more, r, world) == Invoke(e, more, r, Later(world, asked))
    ensures Asked(e, asked + more, r, world) == asked + Asked(e, more, r, Later(world, asked))
  {
    assert (asked + more) + [r] == asked + (more + [r]);
  }

  class ToolGateway {
    var ledger: Ledger
    var calls: seq<WriteRequest>
    var asked: seq<WriteRequest>

    constructor ()
      ensures State() == Effects(map[], []) && asked == []
    {
      ledger := map[];
      calls := [];
      asked := [];
    }

    ghost function State(): Effects
      reads this
    {
      Effects(ledger, calls)
    }

    method InvokeWrite(r: WriteRequest, world: World) returns (reply: Reply)
      modifies this
      ensures (State(), reply) == Invoke(old(State()), old(asked), r, world)
      ensures asked == Asked(old(State()), old(asked), r, world)
    {
      if r.provider !in world.providers {
        return Reply(Failed, None, Some(UnknownProvider));
      }
      if !r.userConfirmed {
        return Reply(Blocked, None, Some(WriteNotConfirmed));
      }
      if r.target == "" || r.key == "" {
        return Reply(Failed, None, Some(MissingWriteFields));
      }
      if r.key in ledger {
        return Reply(IdempotentReplay, ledger[r.key].response, ledger[r.key].fault);
      }
      var limited := world.limits(asked, r);
      asked := asked + [r];
      if limited {
        return Reply(RateLimited, None, Some(RateLimitExceeded));
      }
      ledger := ledger[r.key := LedgerRow(r.runId, r.tool, r.target, Pending, None, None)];
      calls := calls + [r];
      match world.answer(r)
      case Raised(detail) =>
        ledger := ledger[r.key := ledger[r.key].(status := Failed, fault := Some(ProviderError(detail)))];
        reply := Reply(Failed, None, Some(ProviderError(detail)));
      case Accepted(response) =>
        ledger := ledger[r.key := ledger[r.key].(status := Succeeded, response := Some(response))];
        reply := Reply(Succeeded, Some(response), None);
    }
  }

  // ---- when providers are called -----------------------------------------------------------------

  /**
   * A provider is called exactly for an admissible request whose key has no row and that the limiter lets through. An
   * admissible request whose key has a row gets that row's stored answer, whatever the row's status and whatever the
   * limiter says; one without a row is a question to the limiter, and leaves no other trace when that refuses it.
   */
  lemma {:induction false} CalledExactly(e: Effects, asked: seq<WriteRequest>, r: WriteRequest, world: World)
    ensures var (after, reply) := Invoke(e, asked, r, world);
            var reaches := MayBeCalled(r, world) && r.key !in e.ledger;
            && (after.calls != e.calls <==> reaches && !world.limits(asked, r))
            && (after.calls != e.calls ==>
                  && after.calls == e.calls + [r] && after.ledger == e.ledger[r.key := SettledRow(r, world.answer(r))]
                  && (reply.status.Succeeded? <==> world.answer(r).Accepted?)
                  && reply.response == after.ledger[r.key].response)
            && (reply.status.IdempotentReplay? <==> MayBeCalled(r, world) && r.key in e.ledger)
            && (reply.status.IdempotentReplay? ==>
                reply.response == e.ledger[r.key].response && reply.fault == e.ledger[r.key].fault)
            && (reply.status.RateLimited? <==> reaches && world.limits(asked, r))
            && (after.calls == e.calls ==> after == e)
            && (Asked(e, asked, r, world) != asked <==> reaches)
  {
    assert |Invoke(e, asked, r, world).0.calls| == |e.calls| + if Refusal(e, asked, r, world).None? then 1 else 0;
    assert |Asked(e, asked, r, world)| == |asked| + if MayBeCalled(r, world) && r.key !in e.ledger then 1 else 0;
  }

  // ---- what is answered --------------------------------------------------------------------------

  /** The reply and the row of a called provider: its response when it accepted, its detail when it raised. */
  ghost predicate TellsAnswer(reply: Reply, row: LedgerRow, r: WriteRequest, answer: Answer) {
    && row.runId == r.runId && row.tool == r.tool && row.target == r.target
    && row.status == reply.status && row.response == reply.response && row.fault == reply.fault
    && reply == match answer
                case Accepted(response) => Reply(Succeeded, Some(response), None)
                case Raised(detail) => Reply(Failed, None, Some(ProviderError(detail)))
  }

  /**
   * The reply to any request, in the order of the guards. A called provider is called with that very request, and what
   * it answered is in the reply and in the row.
   */
  lemma {:induction false} AnsweredExactly(e: Effects, asked: seq<WriteRequest>, r: WriteRequest, world: World)
    ensures var (after, reply) := Invoke(e, asked, r, world);
            if r.provider !in world.providers then reply == Reply(Failed, None, Some(UnknownProvider)) && after == e
            else if !r.userConfirmed then reply == Reply(Blocked, None, Some(WriteNotConfirmed)) && after == e
            else if r.target == "" || r.key == ""
              then reply == Reply(Failed, None, Some(MissingWriteFields)) && after == e
            else if r.key in e.ledger
              then reply == Reply(IdempotentReplay, e.ledger[r.key].response, e.ledger[r.key].fault) && after == e
            else if world.limits(asked, r) then reply == Reply(RateLimited, None, Some(RateLimitExceeded)) && after == e
            else
              && after.calls == e.calls + [r] && after.ledger.Keys == e.ledger.Keys + {r.key}
              && (forall key | key in e.ledger :: after.ledger[key] == e.ledger[key])
              && TellsAnswer(reply, after.ledger[r.key], r, world.answer(r))
  {
    assert Refusal(e, asked, r, world).None? ==> Invoke(e, asked, r, world).0.calls == e.calls + [r];
  }

  /** Whoever comes next under the key of a called provider, in whatever world that admits it, gets the same answer. */
  lemma {:induction false} AnswerIsReplayed(
      e: Effects, asked: seq<WriteRequest>, r: WriteRequest, world: World,
      asked2: seq<WriteRequest>, again: WriteRequest, world2: World)
    requires Invoke(e, asked, r, world).0.calls != e.calls
    requires again.key == r.key && again.provider in world2.providers && again.userConfirmed && again.target != ""
    ensures var after := Invoke(e, asked, r, world).0;
            Invoke(after, asked2, again, world2)
            == (after, match world.answer(r)
                       case Accepted(response) => Reply(IdempotentReplay, Some(response), None)
                       case Raised(detail) => Reply(IdempotentReplay, None, Some(ProviderError(detail))))
  {
    AnsweredExactly(e, asked, r, world);
    AnsweredExactly(Invoke(e, asked, r, world).0, asked2, again, world2);
  }

  /** An invocation that is cut off leaves a pending row, and at most the call. */
  lemma {:induction false} CutOffExactly(e: Effects, r: WriteRequest, providerCalled: bool)
    requires r.key !in e.ledger
    ensures var after := CutOff(e, r, providerCalled);
            && after.ledger.Keys == e.ledger.Keys + {r.key}
            && (forall key | key in e.ledger :: after.ledger[key] == e.ledger[key])
            && after.ledger[r.key] == LedgerRow(r.runId, r.tool, r.target, Pending, None, None)
            && after.calls == e.calls + if providerCalled then [r] else []
  {
    assert e.calls + [] == e.calls;
  }

  // ---- at most once --------------------------------------------------------------------------

  /** No two provider calls share a key, and every called key has a row. */
  ghost predicate AtMostOnce(e: Effects) {
    (forall i, j | 0 <= i < j < |e.calls| :: e.calls[i].key != e.calls[j].key) &&
    (forall i | 0 <= i < |e.calls| :: e.calls[i].key in e.ledger)
  }

  /** The gateway adds at most one call, only for a key without a row, and the row is there before the call. */
  lemma {:induction false} InvokeKeepsAtMostOnce(e: Effects, asked: seq<WriteRequest>, r: WriteRequest, world: World)
    requires AtMostOnce(e)
    ensures AtMostOnce(Invoke(e, asked, r, world).0)
    ensures Refusal(e, asked, r, world).None? ==> forall called :: AtMostOnce(CutOff(e, r, called))
  {
  }

  /** Rows are never removed, and a row that exists is never rewritten by an invocation. */
  lemma {:induction false} InvokeOnlyAddsItsRow(e: Effects, asked: seq<WriteRequest>, r: WriteRequest, world: World)
    ensures var (after, reply) := Invoke(e, asked, r, world);
            && (forall key | key in e.ledger :: key in after.ledger && after.ledger[key] == e.ledger[key])
            && after.ledger.Keys <= e.ledger.Keys + {r.key}
            && (after.calls == e.calls || (after.calls == e.calls + [r] && r.key !in e.ledger && r.userConfirmed))
            && (IsSuccess(reply.status) || IsFailure(reply.status))
  {
  }
}
