/**
 The token and cost budget in front of provider egress, the retry loop behind it, and the bound
 the two give together on calls that leave the deployment. Costs are reals.
 */
module ModelGateway {
  import opened Text

  datatype Budget = Budget(maxTokens: nat, maxCost: Option<real>, tokens: nat, cost: real)

  /** `reserve`: None when the reservation is refused. */
  function Reserve(b: Budget, tokens: nat, cost: Option<real>): Option<Budget>
  {
    if b.tokens + tokens > b.maxTokens then None
    else if b.maxCost.Some? && cost.Some? && b.cost + cost.value > b.maxCost.value then None
    else Some(b.(tokens := b.tokens + tokens, cost := b.cost + (if cost.Some? then cost.value else 0.0)))
  }

  /** A reservation is granted exactly when tokens and, where both are known, cost fit; then it adds just that. */
  lemma ReserveExactly(b: Budget, tokens: nat, cost: Option<real>)
    ensures var r := Reserve(b, tokens, cost);
            && (r.Some? <==> b.tokens + tokens <= b.maxTokens
                             && (b.maxCost.Some? && cost.Some? ==> b.cost + cost.value <= b.maxCost.value))
            && (r.Some? ==> r.value.tokens - b.tokens == tokens
                            && r.value.cost - b.cost == (if cost.Some? then cost.value else 0.0)
                            && r.value.maxTokens == b.maxTokens && r.value.maxCost == b.maxCost)
  {
  }

  class TokenCostBudget {
    const maxTokens: nat
    const maxCost: Option<real>
    var tokens: nat
    var cost: real

    constructor (maxTokens: nat, maxCost: Option<real>)
      ensures Now() == Budget(maxTokens, maxCost, 0, 0.0)
    {
      this.maxTokens, this.maxCost := maxTokens, maxCost;
      tokens, cost := 0, 0.0;
    }

    function Now(): Budget
      reads this
    {
      Budget(maxTokens, maxCost, tokens, cost)
    }

    method ReserveTokens(n: nat, c: Option<real>) returns (granted: bool)
      modifies this
      ensures granted == old(Reserve(Now(), n, c)).Some?
      ensures Now() == if granted then old(Reserve(Now(), n, c)).value else old(Now())
    {
      if tokens + n > maxTokens {
        return false;
      }
      if maxCost.Some? && c.Some? && cost + c.value > maxCost.value {
        return false;
      }
      tokens := tokens + n;
      if c.Some? {
        cost := cost + c.value;
      }
      return true;
    }
  }

  // -------------------------------------------------------------- one completion

  datatype Provider = Provider(local: bool, maxRetries: nat, costPer1k: Option<real>)

  /** What `ProviderConfig` accepts. */
  predicate Configured(p: Provider) { p.maxRetries <= 3 && (p.costPer1k.Some? ==> p.costPer1k.value >= 0.0) }

  /** The outcome of one call of the opener. */
  datatype Response = Answered(text: string) | TooLarge | Malformed | HttpError(code: int) | Unreachable

  function SumLengths(lengths: seq<nat>): nat
  {
    if lengths == [] then 0 else SumLengths(lengths[..|lengths| - 1]) + lengths[|lengths| - 1]
  }

  /** `_estimate_tokens`, from the UTF-8 lengths of the messages. */
  function EstimateTokens(lengths: seq<nat>): nat
  {
    var quarter := SumLengths(lengths) / 4;
    if quarter >= 1 then quarter else 1
  }

  function Requested(lengths: seq<nat>): nat { EstimateTokens(lengths) + 1 }

  function Cost(p: Provider, tokens: nat): Option<real>
  {
    if p.costPer1k.None? then None else Some(p.costPer1k.value * (tokens as real) / 1000.0)
  }

  /** A quarter of the bytes, rounded down, but at least one; and one more is requested for the answer. */
  lemma RequestedExactly(lengths: seq<nat>)
    ensures var n, total := Requested(lengths), SumLengths(lengths);
            n >= 2 && total < 4 * n && (n > 2 ==> 4 * (n - 1) <= total)
  {
  }

  lemma {:induction false} SumLengthsSplit(a: seq<nat>, b: seq<nat>)
    ensures SumLengths(a + b) == SumLengths(a) + SumLengths(b)
  {
    if b == [] {
      assert a + b == a;
    } else {
      var n := |b| - 1;
      SumLengthsSplit(a, b[..n]);
      assert (a + b)[..|a| + n] == a + b[..n];
    }
  }

  /** The cost is in proportion to the tokens, at the price of a thousand, and unknown without one. */
  lemma CostExactly(p: Provider, tokens: nat)
    ensures Cost(p, tokens).Some? <==> p.costPer1k.Some?
    ensures p.costPer1k.Some? ==> 1000.0 * Cost(p, tokens).value == p.costPer1k.value * (tokens as real)
  {
  }

  predicate Retryable(code: int) { code in [408, 429, 500, 502, 503, 504] }

  /** The response after which the loop stops without trying again. */
  predicate Final(r: Response) { r.Answered? || r.TooLarge? || r.Malformed? || (r.HttpError? && !Retryable(r.code)) }

  /** The retry loop ends after `n` calls of the opener: at the first final response, or at the limit. */
  ghost predicate EndsAfter(p: Provider, responses: seq<Response>, n: nat)
  {
    && 1 <= n <= p.maxRetries + 1 <= |responses|
    && (forall i :: 0 <= i < n - 1 ==> !Final(responses[i]))
    && (Final(responses[n - 1]) || n == p.maxRetries + 1)
  }

  function TextOf(r: Response): Option<string> { if r.Answered? then Some(r.text) else None }

  /** The loop of `_request` against the responses its attempts would meet; returns the text and how
      often the opener was called. */
  method Request(p: Provider, responses: seq<Response>) returns (text: Option<string>, connections: nat)
    requires |responses| == p.maxRetries + 1
    ensures EndsAfter(p, responses, connections)
    ensures forall i :: 0 <= i < connections - 1 ==>
              responses[i].Unreachable?
                || (responses[i].HttpError? && responses[i].code in {408, 429, 500, 502, 503, 504})
    ensures connections <= p.maxRetries ==>
              var last := responses[connections - 1];
              !last.Unreachable? && (last.HttpError? ==> last.code !in {408, 429, 500, 502, 503, 504})
    ensures text == TextOf(responses[connections - 1])
  {
    connections := 0;
    for attempt := 0 to p.maxRetries + 1
      invariant connections == attempt
      invariant forall i :: 0 <= i < attempt ==> !Final(responses[i])
      invariant attempt <= p.maxRetries
    {
      connections := connections + 1;
      match responses[attempt]
      case Answered(t) => return Some(t), connections;
      case TooLarge => return None, connections;
      case Malformed => return None, connections;
      case HttpError(code) =>
        if !Retryable(code) || attempt == p.maxRetries {
          return None, connections;
        }
      case Unreachable =>
        if attempt == p.maxRetries {
          return None, connections;
        }
    }
    assert false;
  }

  datatype Message = Message(role: string, content: Option<string>)

  const MOCK_ANSWER := "[local-mock] Advisory answer generated from redacted context; verify against source evidence."
  const REQUEST_FAILED := "provider request failed"

  /** `complete`: which failures come before the reservation, and that egress comes after it. */
  class Gateway {
    const providers: map<string, Provider>
    /** A gateway may have no budget. */
    const budget: TokenCostBudget?
    const utf8Length: string -> nat
    /** How often the opener was called. */
    var connections: nat

    constructor (providers: map<string, Provider>, budget: TokenCostBudget?, utf8Length: string -> nat)
      requires forall id :: id in providers ==> Configured(providers[id])
      ensures this.providers == providers && this.budget == budget && this.utf8Length == utf8Length && connections == 0
    {
      this.providers, this.budget, this.utf8Length, connections := providers, budget, utf8Length, 0;
    }

    function Lengths(messages: seq<Message>): seq<nat>
      requires forall m :: m in messages ==> m.content.Some?
    {
      seq<nat>(|messages|, i requires 0 <= i < |messages| => utf8Length(messages[i].content.value))
    }

    predicate ValidMessages(messages: seq<Message>)
    {
      messages != [] && forall m :: m in messages ==> m.role in ["system", "user", "assistant"] && m.content.Some?
    }

    /** The budget, if there is one. */
    function Budgeted(): Option<Budget>
      reads budget
    {
      if budget == null then None else Some(budget.Now())
    }

    /** `ready`: the destination resolves to an allowed address and a secret it needs is available. */
    method Complete(providerId: string, messages: seq<Message>, ready: bool, responses: seq<Response>)
      returns (r: Result<string, string>)
      requires providerId in providers ==> |responses| == providers[providerId].maxRetries + 1
      modifies this, budget
      ensures !(providerId in providers && ValidMessages(messages)) ==>
                r.Err? && Budgeted() == old(Budgeted()) && connections == old(connections)
      ensures providerId in providers && ValidMessages(messages) ==>
                var p := providers[providerId];
                var n := Requested(Lengths(messages));
                var before := old(Budgeted());
                var granted := before.None? || Reserve(before.value, n, Cost(p, n)).Some?;
                && Budgeted() == (if before.Some? && granted then Reserve(before.value, n, Cost(p, n)) else before)
                && (!granted ==> r == Err("budget exhausted") && connections == old(connections))
                && (granted && p.local ==> r == Ok(MOCK_ANSWER) && connections == old(connections))
                && (granted && !p.local && !ready ==> r.Err? && connections == old(connections))
                && (granted && !p.local && ready ==>
                      && old(connections) <= connections
                      && EndsAfter(p, responses, connections - old(connections))
                      && r == match TextOf(responses[connections - old(connections) - 1])
                              case Some(text) => Ok(text)
                              case None => Err(REQUEST_FAILED))
    {
      if providerId !in providers {
        return Err("unknown provider");
      }
      if !ValidMessages(messages) {
        return Err("invalid messages");
      }
      var p := providers[providerId];
      var n := Requested(Lengths(messages));
      if budget != null {
        var granted := budget.ReserveTokens(n, Cost(p, n));
        if !granted {
          return Err("budget exhausted");
        }
      }
      if p.local {
        return Ok(MOCK_ANSWER);
      }
      if !ready {
        return Err(REQUEST_FAILED);
      }
      var text, calls := Request(p, responses);
      connections := connections + calls;
      return if text.Some? then Ok(text.value) else Err(REQUEST_FAILED);
    }
  }

  // --------------------------------------------------------- interleaved completions

  datatype Phase = Waiting | Reserved | Refused | Returned

  /** A `complete` call: what it asks for and how far it is. */
  datatype Call = Call(provider: Provider, tokens: nat, cost: Option<real>, phase: Phase, connections: nat)

  datatype World = World(budget: Budget, calls: seq<Call>)

  /** The atomic steps: a call enters, reserves under the lock, opens a connection, returns. */
  datatype Step =
    | Enter(provider: Provider, lengths: seq<nat>)
    | TryReserve(id: nat)
    | Open(id: nat)
    | Return(id: nat)

  function SetCall(g: World, id: nat, c: Call): World
    requires id < |g.calls|
  {
    g.(calls := g.calls[id := c])
  }

  /** A step that is not enabled does nothing. */
  function Do(g: World, s: Step): World
  {
    match s
    case Enter(p, lengths) =>
      g.(calls := g.calls + [Call(p, Requested(lengths), Cost(p, Requested(lengths)), Waiting, 0)])
    case TryReserve(id) =>
      if id >= |g.calls| || !g.calls[id].phase.Waiting? then g
      else
        (match Reserve(g.budget, g.calls[id].tokens, g.calls[id].cost)
         case None => SetCall(g, id, g.calls[id].(phase := Refused))
         case Some(b) => SetCall(g.(budget := b), id, g.calls[id].(phase := Reserved)))
    case Open(id) =>
      if id < |g.calls| && g.calls[id].phase.Reserved? && !g.calls[id].provider.local
        && g.calls[id].connections <= g.calls[id].provider.maxRetries
      then SetCall(g, id, g.calls[id].(connections := g.calls[id].connections + 1)) else g
    case Return(id) =>
      if id < |g.calls| && g.calls[id].phase.Reserved? then SetCall(g, id, g.calls[id].(phase := Returned)) else g
  }

  function Run(maxTokens: nat, maxCost: Option<real>, steps: seq<Step>): World
  {
    if steps == [] then World(Budget(maxTokens, maxCost, 0, 0.0), [])
    else Do(Run(maxTokens, maxCost, steps[..|steps| - 1]), steps[|steps| - 1])
  }

  /** The call holds a reservation. */
  predicate Granted(c: Call) { c.phase.Reserved? || c.phase.Returned? }

  function ReservedTokens(calls: seq<Call>): nat
  {
    if calls == [] then 0
    else ReservedTokens(calls[..|calls| - 1]) + (if Granted(calls[|calls| - 1]) then calls[|calls| - 1].tokens else 0)
  }

  function ReservedCost(calls: seq<Call>): real
  {
    if calls == [] then 0.0
    else
      var c := calls[|calls| - 1];
      ReservedCost(calls[..|calls| - 1]) + (if Granted(c) && c.cost.Some? then c.cost.value else 0.0)
  }

  function Opened(calls: seq<Call>): nat
  {
    if calls == [] then 0 else Opened(calls[..|calls| - 1]) + calls[|calls| - 1].connections
  }

  ghost predicate CallInv(c: Call)
  {
    && c.tokens >= 2
    && c.connections <= c.provider.maxRetries + 1
    && (!Granted(c) ==> c.connections == 0)
    && (Configured(c.provider) ==> c.cost.Some? ==> c.cost.value >= 0.0)
  }

  ghost predicate GatewayInv(g: World)
  {
    && (forall i :: 0 <= i < |g.calls| ==> CallInv(g.calls[i]))
    && g.budget.tokens == ReservedTokens(g.calls) && g.budget.cost == ReservedCost(g.calls)
    && g.budget.tokens <= g.budget.maxTokens
    && (g.budget.maxCost.Some? ==> g.budget.cost <= g.budget.maxCost.value || g.budget.cost == 0.0)
  }

  lemma {:induction false} SumsAfterSet(calls: seq<Call>, id: nat, c: Call)
    requires id < |calls|
    ensures var calls' := calls[id := c]; var d := calls[id];
            && ReservedTokens(calls')
               == ReservedTokens(calls) - (if Granted(d) then d.tokens else 0) + (if Granted(c) then c.tokens else 0)
            && ReservedCost(calls') == ReservedCost(calls) - (if Granted(d) && d.cost.Some? then d.cost.value else 0.0)
                                       + (if Granted(c) && c.cost.Some? then c.cost.value else 0.0)
  {
    var calls' := calls[id := c];
    var init := calls[..|calls| - 1];
    if id == |calls| - 1 {
      assert calls'[..|calls| - 1] == init;
    } else {
      assert calls'[..|calls| - 1] == init[id := c];
      SumsAfterSet(init, id, c);
    }
  }

  lemma SumsAfterEnter(calls: seq<Call>, c: Call)
    requires !Granted(c)
    ensures ReservedTokens(calls + [c]) == ReservedTokens(calls) && ReservedCost(calls + [c]) == ReservedCost(calls)
  {
    assert (calls + [c])[..|calls|] == calls;
  }

  lemma CostIsNonNegative(p: Provider, tokens: nat)
    requires Configured(p)
    ensures Cost(p, tokens).Some? ==> Cost(p, tokens).value >= 0.0
  {
    if p.costPer1k.Some? {
      var product := p.costPer1k.value * (tokens as real);
      assert product >= 0.0;
    }
  }

  lemma ReserveKeeps(g: World, id: nat)
    requires GatewayInv(g) && id < |g.calls| && g.calls[id].phase.Waiting?
    ensures GatewayInv(Do(g, TryReserve(id)))
  {
    SumsAfterSet(g.calls, id, g.calls[id].(phase := Reserved));
    SumsAfterSet(g.calls, id, g.calls[id].(phase := Refused));
    hide ReservedTokens, ReservedCost;
  }

  /** Changing a call without granting or revoking anything. */
  lemma SameGrantKeeps(g: World, id: nat, c: Call)
    requires GatewayInv(g) && id < |g.calls| && CallInv(c)
    requires c.tokens == g.calls[id].tokens && c.cost == g.calls[id].cost && (Granted(c) <==> Granted(g.calls[id]))
    ensures GatewayInv(SetCall(g, id, c))
  {
    SumsAfterSet(g.calls, id, c);
    hide ReservedTokens, ReservedCost;
  }

  lemma StepKeeps(g: World, s: Step)
    requires GatewayInv(g)
    ensures GatewayInv(Do(g, s))
  {
    match s
    case Enter(p, lengths) =>
      if Configured(p) { CostIsNonNegative(p, Requested(lengths)); }
      SumsAfterEnter(g.calls, Call(p, Requested(lengths), Cost(p, Requested(lengths)), Waiting, 0));
      hide ReservedTokens, ReservedCost, SumLengths;
    case TryReserve(id) =>
      if id < |g.calls| && g.calls[id].phase.Waiting? { ReserveKeeps(g, id); }
    case Open(id) =>
      if Do(g, s) != g { SameGrantKeeps(g, id, g.calls[id].(connections := g.calls[id].connections + 1)); }
    case Return(id) =>
      if Do(g, s) != g { SameGrantKeeps(g, id, g.calls[id].(phase := Returned)); }
  }

  /** In any interleaving the budget is the sum of what was granted and never over its limits, and a
      call without a grant has connections nothing. */
  lemma {:induction false} BudgetIsConserved(maxTokens: nat, maxCost: Option<real>, steps: seq<Step>)
    requires maxCost.Some? ==> maxCost.value >= 0.0
    ensures GatewayInv(Run(maxTokens, maxCost, steps))
    ensures var b := Run(maxTokens, maxCost, steps).budget;
            b.maxTokens == maxTokens && b.maxCost == maxCost && (maxCost.Some? ==> b.cost <= maxCost.value)
  {
    if steps != [] {
      BudgetIsConserved(maxTokens, maxCost, steps[..|steps| - 1]);
      StepKeeps(Run(maxTokens, maxCost, steps[..|steps| - 1]), steps[|steps| - 1]);
    }
  }

  lemma {:induction false} OpenedPerToken(calls: seq<Call>, r: nat)
    requires forall i :: 0 <= i < |calls| ==> CallInv(calls[i]) && calls[i].provider.maxRetries <= r
    ensures 2 * Opened(calls) <= (r + 1) * ReservedTokens(calls)
  {
    if calls != [] {
      var init, c := calls[..|calls| - 1], calls[|calls| - 1];
      assert forall i :: 0 <= i < |init| ==> init[i] == calls[i];
      OpenedPerToken(init, r);
      OpenedByOne(c, r);
      Distribute(r + 1, ReservedTokens(init), if Granted(c) then c.tokens else 0);
      hide CallInv, Granted;
    }
  }

  lemma OpenedByOne(c: Call, r: nat)
    requires CallInv(c) && c.provider.maxRetries <= r
    ensures 2 * c.connections <= (r + 1) * (if Granted(c) then c.tokens else 0)
  {
    if Granted(c) {
      Scale(r + 1, 2, c.tokens);
    }
  }

  lemma Scale(k: nat, x: nat, y: nat)
    requires x <= y
    ensures k * x <= k * y
  {
  }

  lemma Distribute(k: nat, x: nat, y: nat)
    ensures k * (x + y) == k * x + k * y
  {
  }

  /** Total egress: at most (retries + 1) connections for every two tokens of the budget. */
  lemma EgressIsBounded(maxTokens: nat, maxCost: Option<real>, steps: seq<Step>, r: nat)
    requires maxCost.Some? ==> maxCost.value >= 0.0
    requires forall i :: 0 <= i < |steps| && steps[i].Enter? ==> steps[i].provider.maxRetries <= r
    ensures 2 * Opened(Run(maxTokens, maxCost, steps).calls) <= (r + 1) * maxTokens
  {
    BudgetIsConserved(maxTokens, maxCost, steps);
    RetriesBound(maxTokens, maxCost, steps, r);
    var g := Run(maxTokens, maxCost, steps);
    OpenedPerToken(g.calls, r);
    Scale(r + 1, ReservedTokens(g.calls), maxTokens);
  }

  lemma {:induction false} RetriesBound(maxTokens: nat, maxCost: Option<real>, steps: seq<Step>, r: nat)
    requires forall i :: 0 <= i < |steps| && steps[i].Enter? ==> steps[i].provider.maxRetries <= r
    ensures forall i :: 0 <= i < |Run(maxTokens, maxCost, steps).calls| ==>
            Run(maxTokens, maxCost, steps).calls[i].provider.maxRetries <= r
  {
    if steps != [] {
      var init := steps[..|steps| - 1];
      assert forall i :: 0 <= i < |init| ==> init[i] == steps[i];
      RetriesBound(maxTokens, maxCost, init, r);
    }
  }

  /** No connection precedes its reservation, and a refused reservation changes nothing but the call. */
  lemma OpeningNeedsAReservation(g: World, s: Step, id: nat)
    requires id < |g.calls|
    ensures id < |Do(g, s).calls|
    ensures Do(g, s).calls[id].connections != g.calls[id].connections ==> g.calls[id].phase.Reserved? && s == Open(id)
    ensures !g.calls[id].phase.Refused? && Do(g, s).calls[id].phase.Refused? ==>
              Do(g, s) == SetCall(g, id, g.calls[id].(phase := Refused))
    ensures g.calls[id].phase.Refused? ==> Do(g, s).calls[id] == g.calls[id]
  {
  }

  // ------------------------------------------------------ one call without interleaving

  function Opens(id: nat, n: nat): seq<Step>
  {
    if n == 0 then [] else Opens(id, n - 1) + [Open(id)]
  }

  lemma RunAppend(maxTokens: nat, maxCost: Option<real>, steps: seq<Step>, s: Step)
    ensures Run(maxTokens, maxCost, steps + [s]) == Do(Run(maxTokens, maxCost, steps), s)
  {
    assert (steps + [s])[..|steps|] == steps;
  }

  lemma OpensSplit(steps: seq<Step>, id: nat, n: nat)
    requires n > 0
    ensures steps + Opens(id, n) == (steps + Opens(id, n - 1)) + [Open(id)]
    ensures steps + Opens(id, 0) == steps
  {
  }

  lemma OneOpen(g: World, id: nat, n: nat)
    requires id < |g.calls| && g.calls[id].phase.Reserved? && !g.calls[id].provider.local
             && n <= g.calls[id].provider.maxRetries
    ensures var h := SetCall(g, id, g.calls[id].(connections := n));
            Do(h, Open(id)) == SetCall(g, id, g.calls[id].(connections := n + 1))
    ensures SetCall(g, id, g.calls[id]) == g
  {
  }

  lemma {:induction false} RunOpens(maxTokens: nat, maxCost: Option<real>, steps: seq<Step>, id: nat, n: nat)
    requires var g := Run(maxTokens, maxCost, steps);
             && id < |g.calls| && g.calls[id].phase.Reserved? && g.calls[id].connections == 0
             && !g.calls[id].provider.local && n <= g.calls[id].provider.maxRetries + 1
    ensures var g := Run(maxTokens, maxCost, steps);
            Run(maxTokens, maxCost, steps + Opens(id, n)) == SetCall(g, id, g.calls[id].(connections := n))
  {
    var g := Run(maxTokens, maxCost, steps);
    hide Run, Do;
    if n == 0 {
      OpensSplit(steps, id, 1);
      OneOpen(g, id, 0);
      assert g.calls[id].(connections := 0) == g.calls[id];
    } else {
      RunOpens(maxTokens, maxCost, steps, id, n - 1);
      OpensSplit(steps, id, n);
      RunAppend(maxTokens, maxCost, steps + Opens(id, n - 1), Open(id));
      OneOpen(g, id, n - 1);
      hide SetCall, Opens;
    }
  }

  /** What a whole call does to the world. */
  function Completed(g: World, p: Provider, tokens: nat, n: nat): World
  {
    match Reserve(g.budget, tokens, Cost(p, tokens))
    case Some(b) => World(b, g.calls + [Call(p, tokens, Cost(p, tokens), Returned, n)])
    case None => World(g.budget, g.calls + [Call(p, tokens, Cost(p, tokens), Refused, 0)])
  }

  /** The call has entered and asked for its reservation. */
  lemma Begun(g: World, p: Provider, lengths: seq<nat>)
    ensures var id, tokens := |g.calls|, Requested(lengths);
            Do(Do(g, Enter(p, lengths)), TryReserve(id)) ==
              match Reserve(g.budget, tokens, Cost(p, tokens))
              case Some(b) => World(b, g.calls + [Call(p, tokens, Cost(p, tokens), Reserved, 0)])
              case None => World(g.budget, g.calls + [Call(p, tokens, Cost(p, tokens), Refused, 0)])
  {
    hide Requested, Cost, Reserve;
  }

  lemma ReturnLast(g: World, c: Call, n: nat)
    requires c.phase.Reserved? && c.connections == 0
    ensures var id := |g.calls|;
            var h := World(g.budget, g.calls + [c]);
            && SetCall(h, id, c.(connections := 0)) == h
            && Do(SetCall(h, id, c.(connections := n)), Return(id))
               == World(g.budget, g.calls + [c.(phase := Returned, connections := n)])
  {
  }

  /** A whole call, as `complete` makes it: it enters, reserves, opens `n` connections and returns. The
      budget afterwards is the one `complete` leaves, and its connections are all that were added. */
  lemma CompletionIsARun(maxTokens: nat, maxCost: Option<real>, steps: seq<Step>, p: Provider, lengths: seq<nat>,
                         n: nat)
    requires if p.local then n == 0 else n <= p.maxRetries + 1
    ensures var g := Run(maxTokens, maxCost, steps);
            Run(maxTokens, maxCost,
                steps + [Enter(p, lengths), TryReserve(|g.calls|)] + Opens(|g.calls|, n) + [Return(|g.calls|)])
            == Completed(g, p, Requested(lengths), n)
  {
    var g := Run(maxTokens, maxCost, steps);
    var id := |g.calls|;
    var begun := steps + [Enter(p, lengths), TryReserve(id)];
    assert begun == (steps + [Enter(p, lengths)]) + [TryReserve(id)];
    RunAppend(maxTokens, maxCost, steps, Enter(p, lengths));
    RunAppend(maxTokens, maxCost, steps + [Enter(p, lengths)], TryReserve(id));
    RunAppend(maxTokens, maxCost, begun + Opens(id, n), Return(id));
    Begun(g, p, lengths);
    OpensSplit(begun, id, 1);
    var h := Run(maxTokens, maxCost, begun);
    if h.calls[id].phase.Refused? {
      RefusedStays(maxTokens, maxCost, begun, id, n);
      hide Run, Requested, Cost, Reserve, SetCall, Opens;
    } else {
      ReturnLast(World(h.budget, g.calls), h.calls[id], n);
      if !p.local {
        RunOpens(maxTokens, maxCost, begun, id, n);
      }
      hide Run, Requested, Cost, Reserve, SetCall, Opens, Do;
    }
  }

  lemma {:induction false} RefusedStays(maxTokens: nat, maxCost: Option<real>, steps: seq<Step>, id: nat, n: nat)
    requires var g := Run(maxTokens, maxCost, steps); id < |g.calls| && g.calls[id].phase.Refused?
    ensures Run(maxTokens, maxCost, steps + Opens(id, n)) == Run(maxTokens, maxCost, steps)
  {
    hide Run;
    if n == 0 {
      OpensSplit(steps, id, 1);
    } else {
      RefusedStays(maxTokens, maxCost, steps, id, n - 1);
      OpensSplit(steps, id, n);
      RunAppend(maxTokens, maxCost, steps + Opens(id, n - 1), Open(id));
    }
  }
}
