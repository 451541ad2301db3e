/** When a step of the ledger is granted, in the numbers of the ledger, and what
    the accounts hold after any run, in what was reserved and reported. */
module BudgetHistory {
  import opened Options
  import opened Budget

  /** A spent and held amount with something more on top does not pass a limit. */
  predicate Room(spent: int, held: int, more: int, limit: Option<int>) {
    limit.None? || spent + held + more <= limit.value
  }

  function Least0(x: int): int { if x >= 0 then x else 0 }

  /** Main result: a node may start exactly if its estimate fits beside what the
      root and the node itself have spent and hold, and one more node is allowed;
      the first of these that fails is the reason given. Afterwards the node is
      within its limit, and its estimate is held for it and for the root. */
  lemma {:induction false} ReserveExactly(l: Ledger, node: string, estimate: int, nodeLimit: Option<int>)
    ensures var own := Of(l.nodes, node);
            var rootFits := Room(l.root.total, l.root.reserved, Least0(estimate), l.limits.maxTokens);
            var nodeFits := Room(own.total, own.reserved, Least0(estimate), nodeLimit);
            var oneMore := Room(l.root.nodes, 0, 1, l.limits.maxNodes);
            var r := Do(l, Reserve(node, estimate, nodeLimit));
            && (r.Committed? <==> rootFits && nodeFits && oneMore)
            && (r == Refused(RootTokens) <==> !rootFits)
            && (r == Refused(NodeTokens) <==> rootFits && !nodeFits)
            && (r == Refused(NodeCount) <==> rootFits && nodeFits && !oneMore)
            && (r.Committed? ==>
                  var after := r.ledger;
                  && node in after.nodes
                  && (nodeLimit.Some? ==> after.nodes[node].total + after.nodes[node].reserved <= nodeLimit.value)
                  && after.nodes[node] == own.(nodes := own.nodes + 1, reserved := own.reserved + Least0(estimate))
                  && after.root == l.root.(nodes := l.root.nodes + 1, reserved := l.root.reserved + Least0(estimate))
                  && (forall other :: other != node ==> Of(after.nodes, other) == Of(l.nodes, other))
                  && after.providers == l.providers && after.limits == l.limits)
  {
  }

  /** What a report is worth: its total, or its parts where it gives none. */
  function Tokens(r: Reported): int {
    if r.total > 0 then r.total else Least0(r.prompt + r.completion)
  }

  /** Main result: usage is recorded exactly if nothing was overdrawn before, one
      more call is allowed, and the root stays within its token and cost limits. */
  lemma {:induction false} SettleExactly(l: Ledger, node: string, provider: string, usage: Reported)
    ensures var p := Of(l.providers, provider);
            var ceilings := l.limits.providerTokens;
            var ceiling := if provider in ceilings then Some(ceilings[provider]) else None;
            var rootHolds := Room(l.root.total, l.root.reserved, 0, l.limits.maxTokens);
            var providerHolds := Room(p.total, p.reserved, 0, ceiling);
            var oneMore := Room(l.root.calls, 0, 1, l.limits.maxCalls);
            var tokensFit := Room(l.root.total, 0, Tokens(usage), l.limits.maxTokens);
            var costFits := l.limits.maxCost.None?
                            || l.root.cost + (if usage.cost >= 0.0 then usage.cost else 0.0) <= l.limits.maxCost.value;
            var r := Do(l, Settle(node, provider, usage));
            && (r.Committed? <==> rootHolds && providerHolds && oneMore && tokensFit && costFits)
            && (r == Refused(RootTokens) <==> !rootHolds || (providerHolds && oneMore && !tokensFit))
            && (r == Refused(ProviderTokens) <==> rootHolds && !providerHolds)
            && (r == Refused(ProviderCalls) <==> rootHolds && providerHolds && !oneMore)
            && (r == Refused(RootCost) <==> rootHolds && providerHolds && oneMore && tokensFit && !costFits)
  {
  }

  // ------------------------------------------------ the accounts, from the history

  /** The steps of a run that were granted. */
  function Granted(limits: Limits, ops: seq<Op>): seq<Op> {
    if ops == [] then []
    else
      var front, op := ops[..|ops| - 1], ops[|ops| - 1];
      Granted(limits, front) + if Do(Run(Empty(limits), front), op).Committed? then [op] else []
  }

  /** What the settles of a node, or of a provider, or of both, add up to. */
  function Settled(ops: seq<Op>, node: Option<string>, provider: Option<string>): Usage {
    if ops == [] then Zero
    else
      var before, op := Settled(ops[..|ops| - 1], node, provider), ops[|ops| - 1];
      if op.Settle? && (node.None? || op.node == node.value) && (provider.None? || op.provider == provider.value) then
        var u := op.usage;
        Usage(before.prompt + Least0(u.prompt), before.completion + Least0(u.completion), before.total + Tokens(u),
              before.cost + (if u.cost >= 0.0 then u.cost else 0.0), before.calls + 1, 0, 0)
      else before
  }

  /** How often a node, or any node, was started. */
  function Starts(ops: seq<Op>, node: Option<string>): nat {
    if ops == [] then 0
    else
      var op := ops[|ops| - 1];
      Starts(ops[..|ops| - 1], node) + if op.Reserve? && (node.None? || op.node == node.value) then 1 else 0
  }

  /** What a node holds: its estimates since it last settled. */
  function Held(ops: seq<Op>, node: string): int {
    if ops == [] then 0
    else
      var before, op := Held(ops[..|ops| - 1], node), ops[|ops| - 1];
      if op.node != node then before else if op.Settle? then 0 else before + Least0(op.estimate)
  }

  ghost predicate NodeFits(l: Ledger, granted: seq<Op>, n: string) {
    var s := Settled(granted, Some(n), None);
    && Of(l.nodes, n) == Usage(s.prompt, s.completion, s.total, s.cost, 0, Starts(granted, Some(n)),
        Max0(Held(granted, n)))
    && Held(granted, n) >= 0
  }

  ghost predicate ProviderFits(l: Ledger, granted: seq<Op>, p: string) {
    Of(l.providers, p) == Settled(granted, None, Some(p))
  }

  ghost predicate RootFits(l: Ledger, granted: seq<Op>) {
    var s := Settled(granted, None, None);
    && l.root.prompt == s.prompt && l.root.completion == s.completion && l.root.total == s.total
    && l.root.cost == s.cost && l.root.calls == s.calls && l.root.nodes == Starts(granted, None)
  }

  /** What a granted settle does to the accounts. */
  lemma SettledIs(l: Ledger, op: Op)
    requires op.Settle? && Do(l, op).Committed?
    ensures var after := Do(l, op).ledger;
            && after.nodes == l.nodes[op.node := Charged(Of(l.nodes, op.node), op.usage).(reserved := 0)]
            && after.providers == l.providers[op.provider := Called(Of(l.providers, op.provider), op.usage)]
            && after.root == Called(l.root, op.usage).(reserved := after.root.reserved)
  {
    hide Do, Of;
    SettleIs(l, op);
  }

  lemma ReservedIs(l: Ledger, op: Op)
    requires op.Reserve? && Do(l, op).Committed?
    ensures var after, own := Do(l, op).ledger, Of(l.nodes, op.node);
            && after.nodes == l.nodes[op.node :=
                 own.(nodes := own.nodes + 1, reserved := own.reserved + Least0(op.estimate))]
            && after.root == l.root.(nodes := l.root.nodes + 1, reserved := l.root.reserved + Least0(op.estimate))
            && after.providers == l.providers
  {
    hide Fits;
  }

  function Charged(u: Usage, r: Reported): Usage {
    u.(prompt := u.prompt + Least0(r.prompt), completion := u.completion + Least0(r.completion),
       total := u.total + Tokens(r), cost := u.cost + (if r.cost >= 0.0 then r.cost else 0.0))
  }

  function Called(u: Usage, r: Reported): Usage {
    Charged(u, r).(calls := u.calls + 1)
  }

  lemma SettledMore(granted: seq<Op>, op: Op, node: Option<string>, provider: Option<string>)
    ensures var before, after := Settled(granted, node, provider), Settled(granted + [op], node, provider);
            after == if op.Settle? && (node.None? || op.node == node.value)
              && (provider.None? || op.provider == provider.value)
                     then Called(before, op.usage) else before
    ensures Starts(granted + [op], node) ==
              Starts(granted, node) + if op.Reserve? && (node.None? || op.node == node.value) then 1 else 0
    ensures forall n :: Held(granted + [op], n) ==
              if op.node != n then Held(granted, n)
              else if op.Settle? then 0 else Held(granted, n) + Least0(op.estimate)
  {
    assert (granted + [op])[..|granted|] == granted;
    SettledOnly(granted, node, provider);
  }

  lemma {:induction false} SettledOnly(ops: seq<Op>, node: Option<string>, provider: Option<string>)
    ensures Settled(ops, node, provider).nodes == 0 && Settled(ops, node, provider).reserved == 0
  {
    if ops != [] {
      SettledOnly(ops[..|ops| - 1], node, provider);
    }
  }

  lemma StepFits(l: Ledger, granted: seq<Op>, op: Op, n: string, p: string)
    requires NodeFits(l, granted, n) && ProviderFits(l, granted, p) && RootFits(l, granted)
    requires Do(l, op).Committed?
    ensures var after := Do(l, op).ledger;
            NodeFits(after, granted + [op], n) && ProviderFits(after, granted + [op], p)
              && RootFits(after, granted + [op])
  {
    hide Do, Settled, Starts, Held, Tokens;
    if op.Settle? {
      SettledIs(l, op);
    } else {
      ReservedIs(l, op);
    }
    SettledMore(granted, op, Some(n), None);
    SettledMore(granted, op, None, Some(p));
    SettledMore(granted, op, None, None);
  }

  /** Main result: after any run each account holds what the granted steps say: a
      node the tokens and cost reported for it, its starts, and its estimates since
      it last settled; a provider what was reported for it and how often; the root
      the sums of all. */
  lemma {:induction false} AccountsAreHistory(limits: Limits, ops: seq<Op>, n: string, p: string)
    ensures var l, granted := Run(Empty(limits), ops), Granted(limits, ops);
            NodeFits(l, granted, n) && ProviderFits(l, granted, p) && RootFits(l, granted)
  {
    hide NodeFits, ProviderFits, RootFits, Do;
    if ops == [] {
      NothingFits(limits, n, p);
    } else {
      var front, op := ops[..|ops| - 1], ops[|ops| - 1];
      AccountsAreHistory(limits, front, n, p);
      var l := Run(Empty(limits), front);
      if Do(l, op).Committed? {
        StepFits(l, Granted(limits, front), op, n, p);
      } else {
        assert Granted(limits, front) + [] == Granted(limits, front);
      }
    }
  }

  lemma NothingFits(limits: Limits, n: string, p: string)
    ensures NodeFits(Empty(limits), [], n) && ProviderFits(Empty(limits), [], p) && RootFits(Empty(limits), [])
  {
  }
}
