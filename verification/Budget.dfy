/** The budget ledger of a root: node and provider accounts, reservations, and
    what every interleaving of reserve and settle steps keeps. */
module Budget {
  import opened Options

  datatype Limits = Limits(maxTokens: Option<nat>, maxCost: Option<real>, maxNodes: Option<nat>,
                           maxCalls: Option<nat>, providerTokens: map<string, int>)

  datatype Usage = Usage(prompt: nat, completion: nat, total: nat, cost: real, calls: nat, nodes: nat, reserved: nat)

  const Zero := Usage(0, 0, 0, 0.0, 0, 0, 0)

  datatype Ledger = Ledger(limits: Limits, root: Usage, nodes: map<string, Usage>, providers: map<string, Usage>)

  /** What a provider reports; absent counts read as 0. */
  datatype Reported = Reported(prompt: int, completion: int, total: int, cost: real)

  datatype Refusal = RootTokens | NodeTokens | NodeCount | ProviderTokens | ProviderCalls | RootCost

  datatype Outcome = Committed(ledger: Ledger) | Refused(why: Refusal)

  function Max0(x: int): nat { if x < 0 then 0 else x }

  function Of(accounts: map<string, Usage>, key: string): Usage {
    if key in accounts then accounts[key] else Zero
  }

  /** Within a token limit, counting what is reserved and what is about to be. */
  predicate Fits(u: Usage, limit: Option<int>, estimate: int) {
    limit.Some? ==> u.total + u.reserved + Max0(estimate) <= limit.value
  }

  function Ceiling(l: Limits, provider: string): Option<int> {
    if provider in l.providerTokens then Some(l.providerTokens[provider]) else None
  }

  function AssertCanStartNode(l: Ledger, node: string, estimate: int, nodeLimit: Option<int>): Option<Refusal> {
    if !Fits(l.root, l.limits.maxTokens, estimate) then Some(RootTokens)
    else if !Fits(Of(l.nodes, node), nodeLimit, estimate) then Some(NodeTokens)
    else if l.limits.maxNodes.Some? && l.root.nodes + 1 > l.limits.maxNodes.value then Some(NodeCount)
    else None
  }

  function AssertCanStartProvider(l: Ledger, provider: string, estimate: int): Option<Refusal> {
    if !Fits(l.root, l.limits.maxTokens, estimate) then Some(RootTokens)
    else if !Fits(Of(l.providers, provider), Ceiling(l.limits, provider), estimate) then Some(ProviderTokens)
    else if l.limits.maxCalls.Some? && l.root.calls + 1 > l.limits.maxCalls.value then Some(ProviderCalls)
    else None
  }

  function ReserveNode(l: Ledger, node: string, estimate: int): Ledger {
    var account := Of(l.nodes, node);
    l.(root := l.root.(nodes := l.root.nodes + 1, reserved := l.root.reserved + Max0(estimate)),
       nodes := l.nodes[node := account.(nodes := account.nodes + 1, reserved := account.reserved + Max0(estimate))])
  }

  /** A missing or non-positive total is replaced by the sum of its parts. */
  function UsageOf(r: Reported): Usage {
    var total := if r.total <= 0 then r.prompt + r.completion else r.total;
    Usage(Max0(r.prompt), Max0(r.completion), Max0(total), if r.cost < 0.0 then 0.0 else r.cost, 0, 0, 0)
  }

  function Add(u: Usage, more: Usage, call: bool): Usage {
    u.(prompt := u.prompt + more.prompt, completion := u.completion + more.completion, total := u.total + more.total,
       cost := u.cost + more.cost, calls := u.calls + (if call then 1 else 0))
  }

  function RecordProviderUsage(l: Ledger, node: string, provider: string, r: Reported): Outcome {
    var incoming := UsageOf(r);
    var account := Of(l.nodes, node);
    var root := Add(l.root, incoming, true).(reserved := Max0(l.root.reserved - account.reserved));
    if l.limits.maxTokens.Some? && root.total > l.limits.maxTokens.value then Refused(RootTokens)
    else if l.limits.maxCost.Some? && root.cost > l.limits.maxCost.value then Refused(RootCost)
    else Committed(l.(root := root,
                      nodes := l.nodes[node := Add(account, incoming, false).(reserved := 0)],
                      providers := l.providers[provider := Add(Of(l.providers, provider), incoming, true)]))
  }

  /** One atomic step of a branch, as the engine runs it on the locked ledger. */
  datatype Op =
    | Reserve(node: string, estimate: int, nodeLimit: Option<int>)
    | Settle(node: string, provider: string, usage: Reported)

  function Do(l: Ledger, op: Op): Outcome {
    match op
    case Reserve(node, estimate, nodeLimit) =>
      (match AssertCanStartNode(l, node, estimate, nodeLimit)
       case Some(why) => Refused(why)
       case None => Committed(ReserveNode(l, node, estimate)))
    case Settle(node, provider, usage) =>
      match AssertCanStartProvider(l, provider, 0)
      case Some(why) => Refused(why)
      case None => RecordProviderUsage(l, node, provider, usage)
  }

  /** A refused step leaves the ledger as it was. */
  function After(l: Ledger, op: Op): Ledger {
    match Do(l, op) case Committed(after) => after case Refused(_) => l
  }

  function Run(l: Ledger, ops: seq<Op>): Ledger {
    if ops == [] then l else After(Run(l, ops[..|ops| - 1]), ops[|ops| - 1])
  }

  function Empty(limits: Limits): Ledger {
    Ledger(limits, Zero, map[], map[])
  }

  // ------------------------------------------------ sums over accounts

  function Plus(a: Usage, b: Usage): Usage {
    Usage(a.prompt + b.prompt, a.completion + b.completion, a.total + b.total, a.cost + b.cost, a.calls + b.calls,
        a.nodes + b.nodes, a.reserved + b.reserved)
  }

  ghost function Sum(accounts: map<string, Usage>): Usage {
    if accounts == map[] then Zero
    else
      var k :| k in accounts;
      Plus(accounts[k], Sum(accounts - {k}))
  }

  lemma PlusShuffle(a: Usage, b: Usage, c: Usage)
    ensures Plus(a, Plus(b, c)) == Plus(b, Plus(a, c))
  {
  }

  /** The sum does not depend on the account taken out first. */
  lemma {:induction false} SumWithout(accounts: map<string, Usage>, k: string)
    requires k in accounts
    ensures Sum(accounts) == Plus(accounts[k], Sum(accounts - {k}))
    decreases |accounts|
  {
    var j :| j in accounts && Sum(accounts) == Plus(accounts[j], Sum(accounts - {j}));
    if j != k {
      SumWithout(accounts - {j}, k);
      SumWithout(accounts - {k}, j);
      assert accounts - {j} - {k} == accounts - {k} - {j};
      assert (accounts - {j})[k] == accounts[k] && (accounts - {k})[j] == accounts[j];
      PlusShuffle(accounts[j], accounts[k], Sum(accounts - {j} - {k}));
    }
  }

  lemma SumUpdate(accounts: map<string, Usage>, k: string, u: Usage)
    ensures Plus(Sum(accounts[k := u]), Of(accounts, k)) == Plus(Sum(accounts), u)
    ensures Sum(accounts).reserved >= Of(accounts, k).reserved
  {
    SumWithout(accounts[k := u], k);
    if k in accounts {
      SumWithout(accounts, k);
      assert accounts[k := u] - {k} == accounts - {k};
    } else {
      assert accounts[k := u] - {k} == accounts;
    }
  }

  // ------------------------------------------------ conservation

  /** The root account is the sum of the node accounts and of the provider
      accounts, each in the fields that kind of account carries. */
  ghost predicate Conserved(l: Ledger) {
    && Sum(l.nodes) == l.root.(calls := 0)
    && Sum(l.providers) == l.root.(nodes := 0, reserved := 0)
  }

  lemma DoConserves(l: Ledger, op: Op)
    requires Conserved(l)
    ensures Conserved(After(l, op))
  {
    hide Sum, Fits, Ceiling;
    if Do(l, op).Committed? {
      var after := After(l, op);
      SumUpdate(l.nodes, op.node, after.nodes[op.node]);
      if op.Settle? {
        SumUpdate(l.providers, op.provider, after.providers[op.provider]);
      }
    }
  }

  /** The clamp on reserved tokens never fires. */
  predicate ClampIdle(l: Ledger, op: Op) {
    op.Settle? ==> l.root.reserved >= Of(l.nodes, op.node).reserved
  }

  /** Main result: tokens and cost are conserved between the root, its nodes and
      its providers over every interleaving, and releasing a reservation never
      asks for more than is reserved. */
  lemma {:induction false} LedgerConserved(limits: Limits, ops: seq<Op>, next: Op)
    ensures Conserved(Run(Empty(limits), ops))
    ensures ClampIdle(Run(Empty(limits), ops), next)
    decreases |ops|
  {
    var l := Run(Empty(limits), ops);
    if ops != [] {
      LedgerConserved(limits, ops[..|ops| - 1], next);
      DoConserves(Run(Empty(limits), ops[..|ops| - 1]), ops[|ops| - 1]);
    }
    if next.Settle? {
      SumUpdate(l.nodes, next.node, Zero);
    }
  }

  // ------------------------------------------------ limits

  predicate WithinLimits(l: Ledger) {
    && (l.limits.maxTokens.Some? ==> l.root.total <= l.limits.maxTokens.value)
    && (l.limits.maxNodes.Some? ==> l.root.nodes <= l.limits.maxNodes.value)
    && (l.limits.maxCalls.Some? ==> l.root.calls <= l.limits.maxCalls.value)
    && (l.limits.maxCost.Some? && l.limits.maxCost.value >= 0.0 ==> l.root.cost <= l.limits.maxCost.value)
  }

  /** Main result: every committed ledger is within its root limits. */
  lemma {:induction false} LimitsHold(limits: Limits, ops: seq<Op>)
    ensures Run(Empty(limits), ops).limits == limits && WithinLimits(Run(Empty(limits), ops))
  {
    if ops != [] {
      LimitsHold(limits, ops[..|ops| - 1]);
    }
  }

  /** A settled call used no more than its node had reserved. */
  predicate Covered(l: Ledger, op: Op) {
    op.Settle? ==> UsageOf(op.usage).total <= Of(l.nodes, op.node).reserved
  }

  ghost predicate AllCovered(l: Ledger, ops: seq<Op>) {
    forall i :: 0 <= i < |ops| ==> Covered(Run(l, ops[..i]), ops[i])
  }

  predicate Solvent(l: Ledger) {
    l.limits.maxTokens.Some? ==> l.root.total + l.root.reserved <= l.limits.maxTokens.value
  }

  lemma SolventStep(l: Ledger, op: Op)
    requires Conserved(l) && Solvent(l) && Covered(l, op)
    ensures Solvent(After(l, op))
    ensures op.Settle? ==> Do(l, op) != Refused(RootTokens)
  {
    hide Sum, Ceiling, UsageOf, Conserved;
    assert l.root.reserved >= Of(l.nodes, op.node).reserved by { ReservedCovers(l, op.node); }
    if op.Settle? && Do(l, op).Committed? {
      SettleIs(l, op);
    }
  }

  lemma ReservedCovers(l: Ledger, node: string)
    requires Conserved(l)
    ensures l.root.reserved >= Of(l.nodes, node).reserved
  {
    hide Sum;
    SumUpdate(l.nodes, node, Zero);
  }

  /** Main result: while settled usage stays within reservations, spent and
      reserved tokens together stay within the limit, and no settle is refused
      for root tokens. */
  lemma {:induction false} CoveredIsSolvent(limits: Limits, ops: seq<Op>, next: Op)
    requires AllCovered(Empty(limits), ops) && Covered(Run(Empty(limits), ops), next)
    ensures Solvent(Run(Empty(limits), ops))
    ensures next.Settle? ==> Do(Run(Empty(limits), ops), next) != Refused(RootTokens)
    decreases |ops|
  {
    hide Do, After, Covered, Conserved, Sum;
    if ops != [] {
      var front, last := ops[..|ops| - 1], ops[|ops| - 1];
      forall i | 0 <= i < |front| ensures Covered(Run(Empty(limits), front[..i]), front[i]) {
        assert front[..i] == ops[..i] && front[i] == ops[i];
      }
      assert ops[..|front|] == front;
      CoveredIsSolvent(limits, front, last);
      LedgerConserved(limits, front, last);
      SolventStep(Run(Empty(limits), front), last);
    }
    LedgerConserved(limits, ops, next);
    SolventStep(Run(Empty(limits), ops), next);
  }

  lemma RunThree(l: Ledger, a: Op, b: Op, c: Op)
    ensures Run(l, [a, b, c]) == After(After(After(l, a), b), c)
  {
    hide After;
    assert [a, b, c][..2] == [a, b] && [a, b][..1] == [a] && [a][..0] == [];
    assert Run(l, [a]) == After(l, a);
    assert Run(l, [a, b]) == After(After(l, a), b);
  }

  /** Without that, a call that was made can be refused although it fits the
      limit: node `a` overran its reservation, and the check before recording
      still counts what `b` itself has reserved. */
  lemma OverrunRefusesOther(limit: nat, a: string, b: string, p: string, held: nat, used: nat, next: nat)
    requires a != b && 0 < used <= limit < used + held && 2 * held <= limit
    ensures var limits := Limits(Some(limit), None, None, None, map[]);
            var l := Run(Empty(limits),
                [Reserve(a, held, None), Reserve(b, held, None), Settle(a, p, Reported(0, 0, used, 0.0))]);
            && l.root.total == used && Of(l.nodes, b).reserved == held
            && Do(l, Settle(b, p, Reported(0, 0, next, 0.0))) == Refused(RootTokens)
  {
    hide Run;
    var limits := Limits(Some(limit), None, None, None, map[]);
    RunThree(Empty(limits), Reserve(a, held, None), Reserve(b, held, None), Settle(a, p, Reported(0, 0, used, 0.0)));
    var l := After(After(Empty(limits), Reserve(a, held, None)), Reserve(b, held, None));
    assert l.root == Usage(0, 0, 0, 0.0, 0, 2, 2 * held) && l.nodes[a].reserved == held && l.nodes[b].reserved == held;
    SettleIs(l, Settle(a, p, Reported(0, 0, used, 0.0)));
  }

  /** Main result: a settle that fits the limit is refused for root tokens if and
      only if spent and reserved tokens together already pass it. */
  lemma {:induction false} SettleRefusedExactly(l: Ledger, op: Op)
    requires op.Settle?
    ensures var fits := l.limits.maxTokens.Some? ==> l.root.total + UsageOf(op.usage).total <= l.limits.maxTokens.value;
            && (!Solvent(l) ==> Do(l, op) == Refused(RootTokens))
            && (fits ==> (Do(l, op) == Refused(RootTokens) <==> !Solvent(l)))
  {
    hide Ceiling, UsageOf;
  }

  /** The engine settles without a cost: then none ever accrues, and no step is
      refused for it. */
  lemma {:induction false} CostNeverRefuses(limits: Limits, ops: seq<Op>, next: Op)
    requires limits.maxCost.Some? ==> limits.maxCost.value >= 0.0
    requires forall i :: 0 <= i < |ops| && ops[i].Settle? ==> ops[i].usage.cost == 0.0
    requires next.Settle? ==> next.usage.cost == 0.0
    ensures Run(Empty(limits), ops).root.cost == 0.0 && Run(Empty(limits), ops).limits == limits
    ensures Do(Run(Empty(limits), ops), next) != Refused(RootCost)
    decreases |ops|
  {
    hide Fits, Ceiling;
    if ops != [] {
      CostNeverRefuses(limits, ops[..|ops| - 1], ops[|ops| - 1]);
    }
  }

  // ------------------------------------------------ provider ceilings

  /** The tokens the last recorded call to `provider` used. */
  ghost function LastCall(l: Ledger, ops: seq<Op>, provider: string): nat {
    if ops == [] then 0
    else
      var front, op := ops[..|ops| - 1], ops[|ops| - 1];
      if op.Settle? && op.provider == provider && Do(Run(l, front), op).Committed? then UsageOf(op.usage).total
      else LastCall(l, front, provider)
  }

  /** Main result: a provider's tokens pass its ceiling by no more than the last
      call recorded for it, and once they have passed it nothing more is recorded. */
  lemma {:induction false} ProviderCeiling(limits: Limits, ops: seq<Op>, provider: string, next: Op)
    requires Ceiling(limits, provider).Some?
    ensures var l := Run(Empty(limits), ops);
            var ceiling := Ceiling(limits, provider).value;
            && Of(l.providers, provider).total <= Max0(ceiling) + LastCall(Empty(limits), ops, provider)
            && Of(l.providers, provider).reserved == 0
            && (Of(l.providers, provider).total > ceiling && next.Settle? && next.provider == provider
                ==> Do(l, next).Refused?)
  {
    LimitsHold(limits, ops);
    if ops != [] {
      ProviderCeiling(limits, ops[..|ops| - 1], provider, next);
      LimitsHold(limits, ops[..|ops| - 1]);
    }
  }

  // ------------------------------------------------ order of settles

  /** Settling two branches in either order leaves the same ledger. */
  lemma {:induction false} SettlesCommute(l: Ledger, a: Op, b: Op)
    requires a.Settle? && b.Settle? && a.node != b.node && Conserved(l)
    requires Do(l, a).Committed? && Do(After(l, a), b).Committed? && Do(l, b).Committed?
    requires Do(After(l, b), a).Committed?
    ensures After(After(l, a), b) == After(After(l, b), a)
  {
    hide Do, Sum, UsageOf, Add, After;
    BothReserved(l.nodes, a.node, b.node);
    SettleIs(l, a);
    SettleIs(l, b);
    SettleIs(After(l, a), b);
    SettleIs(After(l, b), a);
    var u, v := UsageOf(a.usage), UsageOf(b.usage);
    var ab, ba := After(After(l, a), b), After(After(l, b), a);
    RootsCommute(l.root, u, v, Of(l.nodes, a.node).reserved, Of(l.nodes, b.node).reserved);
    AddCommutes(Of(l.providers, a.provider), u, v);
    UpdatesCommute(l.nodes, a.node, ab.nodes[a.node], b.node, ab.nodes[b.node]);
    if a.provider != b.provider {
      UpdatesCommute(l.providers, a.provider, ab.providers[a.provider], b.provider, ab.providers[b.provider]);
    }
  }

  lemma UpdatesCommute(m: map<string, Usage>, a: string, u: Usage, b: string, v: Usage)
    requires a != b
    ensures m[a := u][b := v] == m[b := v][a := u]
  {
  }

  lemma RootsCommute(root: Usage, u: Usage, v: Usage, ra: nat, rb: nat)
    requires root.reserved >= ra + rb
    ensures var first := Add(root, u, true).(reserved := Max0(root.reserved - ra));
            var second := Add(root, v, true).(reserved := Max0(root.reserved - rb));
            Add(first, v, true).(reserved := Max0(first.reserved - rb))
              == Add(second, u, true).(reserved := Max0(second.reserved - ra))
  {
  }

  lemma AddCommutes(u: Usage, a: Usage, b: Usage)
    ensures Add(Add(u, a, true), b, true) == Add(Add(u, b, true), a, true)
  {
  }

  lemma SettleIs(l: Ledger, op: Op)
    requires op.Settle? && Do(l, op).Committed?
    ensures var u := UsageOf(op.usage);
            && After(l, op).limits == l.limits
            && After(l, op).root == Add(l.root, u,
                true).(reserved := Max0(l.root.reserved - Of(l.nodes, op.node).reserved))
            && After(l, op).nodes == l.nodes[op.node := Add(Of(l.nodes, op.node), u, false).(reserved := 0)]
            && After(l, op).providers == l.providers[op.provider := Add(Of(l.providers, op.provider), u, true)]
  {
  }

  lemma BothReserved(accounts: map<string, Usage>, a: string, b: string)
    requires a != b
    ensures Sum(accounts).reserved >= Of(accounts, a).reserved + Of(accounts, b).reserved
  {
    if a in accounts {
      SumWithout(accounts, a);
      SumUpdate(accounts - {a}, b, Zero);
    } else {
      SumUpdate(accounts, b, Zero);
    }
  }
}
