// How one request is routed: a native selector if one answers, else the policy in force, which
// may remember what it chose and what came of it.
module Routing {
  import opened Requests
  import opened Selection
  import opened PolicyState
  import opened ControlModel

  datatype PolicyName = Stateless(policy: Policy) | RoundRobinName | SpreadName | BanditName(explorationBonus: real)

  // A policy with all it remembers.
  datatype ActivePolicy =
    | Fixed(policy: Policy)
    | RoundRobin(cursor: nat)
    | Spread(counts: Counts)
    | Learner(explorationBonus: real, bandit: Bandit)

  function Initially(name: PolicyName): ActivePolicy {
    match name
    case Stateless(policy) => Fixed(policy)
    case RoundRobinName => RoundRobin(0)
    case SpreadName => Spread([])
    case BanditName(bonus) => Learner(bonus, Bandit([], []))
  }

  // The policy's pick is one of the candidates, and available if any of them is.
  function Pick(p: ActivePolicy, sla: SlaClass, cs: seq<Candidate>): (c: Candidate)
    requires |cs| > 0
    ensures c in cs && (c.status.Available? <==> AnyAvailable(cs))
  {
    var usable := Usable(cs);
    match p
    case Fixed(policy) => ChooseIsLeast(policy, sla, cs); Choose(policy, sla, cs)
    case RoundRobin(cursor) => UsableAdmits(cs, cursor % |usable|); usable[cursor % |usable|]
    case Spread(counts) => UsableAdmits(cs, LeastAt(usable, SpreadKey(counts), 3)); SpreadChoice(counts, cs)
    case Learner(bonus, b) =>
      UsableAdmits(cs, LeastAt(usable, BanditKey(b, bonus), 1)); PickLeast(cs, BanditKey(b, bonus), 1)
  }

  function AfterPick(p: ActivePolicy, c: Candidate): ActivePolicy {
    match p
    case RoundRobin(cursor) => RoundRobin(cursor + 1)
    case Spread(counts) => Spread(CountedUp(counts, CandidateSite(c)))
    case _ => p
  }

  function RewardOf(x: Result): real {
    Reward(x.slaMet, x.hitRatio, x.totalMs, x.costUsd)
  }

  function AfterResult(p: ActivePolicy, x: Result): ActivePolicy {
    match p
    case Spread(counts) => Spread(CountedDown(counts, x.site))
    case Learner(bonus, b) => Learner(bonus, Learn(b, x.site, RewardOf(x)))
    case _ => p
  }

  // Results of requests that were turned away are not shown to the policy.
  function AfterOutcome(p: ActivePolicy, o: Outcome): ActivePolicy {
    if o.Done? && o.result.admitted then AfterResult(p, o.result) else p
  }

  // Which of the two native selectors answer a request.
  datatype Natives = Natives(grpc: bool, cpp: bool)

  const NO_NATIVES := Natives(false, false)

  function Find(cs: seq<Candidate>, c: Candidate): (k: nat)
    requires c in cs
    ensures k < |cs| && cs[k] == c
  {
    if cs[0] == c then 0 else Find(cs[1..], c) + 1
  }

  // The position a request goes to, and the policy afterwards.  Whoever answers, the request is
  // turned away only if every candidate is unavailable.
  function Route(n: Natives, p: ActivePolicy, sla: SlaClass, cs: seq<Candidate>): (r: (nat, ActivePolicy))
    requires |cs| > 0
    ensures Admitting(cs, r.0)
  {
    NativesAdmit(sla, cs);
    if n.grpc then (GrpcIndex(sla, cs), p)
    else if n.cpp then (CppIndex(sla, cs), p)
    else (Find(cs, Pick(p, sla, cs)), AfterPick(p, Pick(p, sla, cs)))
  }

  // The registry holds one object of each policy that keeps state; the name says which acts.
  class Router {
    const name: PolicyName
    const roundRobin: RoundRobinPolicy
    const spread: FailureAwareSpreadPolicy
    const bandit: ContextualBanditPolicy

    ghost predicate Valid() {
      name.BanditName? ==> bandit.explorationBonus == name.explorationBonus
    }

    ghost function View(): ActivePolicy
      reads roundRobin, spread, bandit
    {
      match name
      case Stateless(policy) => Fixed(policy)
      case RoundRobinName => RoundRobin(roundRobin.cursor)
      case SpreadName => Spread(spread.poolCounts)
      case BanditName(bonus) => Learner(bonus, bandit.View())
    }

    constructor (name: PolicyName)
      ensures Valid() && this.name == name && View() == Initially(name)
      ensures fresh(roundRobin) && fresh(spread) && fresh(bandit)
    {
      this.name := name;
      roundRobin := new RoundRobinPolicy();
      spread := new FailureAwareSpreadPolicy();
      bandit := new ContextualBanditPolicy(if name.BanditName? then name.explorationBonus else 18.0);
    }

    method Choose(sla: SlaClass, cs: seq<Candidate>) returns (c: Candidate)
      requires Valid() && |cs| > 0
      modifies roundRobin, spread
      ensures c == Pick(old(View()), sla, cs) && View() == AfterPick(old(View()), c)
    {
      match name {
        case Stateless(policy) => c := Selection.Choose(policy, sla, cs);
        case RoundRobinName => c := roundRobin.Choose(cs);
        case SpreadName => c := spread.Choose(cs);
        case BanditName(_) => c := bandit.Choose(cs);
      }
    }

    method ObserveResult(x: Result)
      requires Valid()
      modifies spread, bandit
      ensures View() == AfterResult(old(View()), x)
    {
      match name {
        case Stateless(_) =>
        case RoundRobinName =>
        case SpreadName => spread.ObserveResult(x.site);
        case BanditName(_) => bandit.ObserveResult(x.site, x.slaMet, x.hitRatio, x.totalMs, x.costUsd);
      }
    }

    /** The order of precedence: the gRPC router if it answers, then the C++ core, then the
        policy.  An index outside the list counts as no answer. */
    method ChooseCandidate(n: Natives, sla: SlaClass, cs: seq<Candidate>) returns (k: nat)
      requires Valid() && |cs| > 0
      modifies roundRobin, spread
      ensures (k, View()) == Route(n, old(View()), sla, cs)
      ensures Admitting(cs, k)
    {
      NativesAdmit(sla, cs);
      if n.grpc {
        var r := ChooseGrpc(sla, cs);
        if 0 <= r < |cs| {
          return r;
        }
      }
      if n.cpp {
        var r := ChooseCpp(sla, cs);
        if 0 <= r < |cs| {
          return r;
        }
      }
      var c := Choose(sla, cs);
      k := Find(cs, c);
    }
  }
}
