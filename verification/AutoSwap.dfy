/**
 How a Tempo charge is funded: a machine-token route, or a swap into the charge currency; then the
 token that pays the fee, and the calls put under one signature. The node is a record of arbitrary
 answers: any of them may be missing, and where balances matter, those it gives are true ones.
 Tokens are lower-cased addresses.
 */
module AutoSwap {
  import opened Arithmetic
  import opened Wrappers

  type Token = nat

  type Balances = map<Token, nat>

  function Held(b: Balances, t: Token): nat {
    if t in b then b[t] else 0
  }

  datatype Call =
    | Approve(token: Token, allowance: nat)
    | Swap(tokenIn: Token, tokenOut: Token, amountOut: nat, maxIn: nat)
    | Transfer(token: Token, amount: nat)
    // The machine-token swapper takes the amount and pays the recipient itself.
    | SwapTo(token: Token, amount: nat)

  datatype Error = InsufficientFunds | TransactionFailed | OverPolicy

  // ---------- What a batch does on chain ----------

  function AfterSwap(b: Balances, s: Call, input: nat): Balances
    requires s.Swap?
  {
    var left := if input <= Held(b, s.tokenIn) then Held(b, s.tokenIn) - input else 0;
    var paid := b[s.tokenIn := left];
    paid[s.tokenOut := Held(paid, s.tokenOut) + s.amountOut]
  }

  function LessAllowed(allowed: Balances, t: Token, input: nat): Balances {
    allowed[t := if input <= Held(allowed, t) then Held(allowed, t) - input else 0]
  }

  /**
   The batch runs whatever the exchange takes for each swap, up to that swap's maximum: no
   allowance and no balance falls below zero.
   */
  ghost predicate CanRun(b: Balances, allowed: Balances, calls: seq<Call>)
    decreases |calls|
  {
    calls == [] ||
    var call, rest := calls[0], calls[1..];
    match call
    case Approve(t, a) => CanRun(b, allowed[t := a], rest)
    case Transfer(t, a) => a <= Held(b, t) && CanRun(b[t := Held(b, t) - a], allowed, rest)
    case SwapTo(t, a) =>
      && a <= Held(allowed, t) && a <= Held(b, t)
      && CanRun(b[t := Held(b, t) - a], LessAllowed(allowed, t, a), rest)
    case Swap(i, _, _, most) =>
      forall input: nat ::
        && (input <= most ==> input <= Held(allowed, i) && input <= Held(b, i))
        && (input <= most ==> CanRun(AfterSwap(b, call, input), LessAllowed(allowed, i, input), rest))
  }

  /** The fee is charged before the batch runs. */
  ghost predicate Solvent(b: Balances, feeToken: Token, fee: nat, calls: seq<Call>) {
    fee <= Held(b, feeToken) && CanRun(b[feeToken := Held(b, feeToken) - fee], map[], calls)
  }

  // ---------- Transfers ----------

  const MAX_SPLITS := 10

  function Sum(s: seq<nat>): nat {
    if s == [] then 0 else s[0] + Sum(s[1..])
  }

  /** The transfers of a charge: the remainder to the primary recipient, then the splits. */
  function GetTransfers(total: nat, splits: seq<int>): Result<seq<nat>, Error> {
    if splits == [] then Success([total])
    else if |splits| > MAX_SPLITS || (exists k :: 0 <= k < |splits| && splits[k] <= 0) then Failure(TransactionFailed)
    else
      var amounts := seq(|splits|, k requires 0 <= k < |splits| => splits[k] as nat);
      if Sum(amounts) >= total then Failure(TransactionFailed)
      else Success([total - Sum(amounts)] + amounts)
  }

  /** One transfer of everything, or a positive rest and up to ten positive splits after it that add up to the charge. */
  ghost predicate Divides(total: nat, splits: seq<int>, transfers: seq<nat>) {
    && Sum(transfers) == total && |transfers| == |splits| + 1 <= 11
    && (forall k :: 0 <= k < |splits| ==> transfers[k + 1] == splits[k] > 0)
    && (splits != [] ==> transfers[0] > 0)
  }

  /** The transfers divide the charge, and there are none exactly if it cannot be divided so. */
  lemma TransfersPayTheCharge(total: nat, splits: seq<int>, transfers: seq<nat>)
    ensures GetTransfers(total, splits) == Success(transfers) <==> Divides(total, splits, transfers)
  {
    if splits == [] {
      assert Divides(total, splits, transfers) ==> transfers == [transfers[0]] && Sum(transfers[1..]) == 0;
    } else if |splits| <= 10 && forall k :: 0 <= k < |splits| ==> splits[k] > 0 {
      var amounts := seq(|splits|, k requires 0 <= k < |splits| => splits[k] as nat);
      if Divides(total, splits, transfers) {
        assert transfers[1..] == amounts;
        assert transfers == [total - Sum(amounts)] + amounts;
      } else if Sum(amounts) < total {
        var divided := [total - Sum(amounts)] + amounts;
        assert divided[1..] == amounts;
        assert Divides(total, splits, divided);
      }
    }
  }

  function TransferCalls(currency: Token, transfers: seq<nat>): seq<Call> {
    seq(|transfers|, k requires 0 <= k < |transfers| => Transfer(currency, transfers[k]))
  }

  /** Transfers run exactly when the balance covers their sum. */
  lemma {:induction false} TransfersRun(b: Balances, allowed: Balances, currency: Token, transfers: seq<nat>)
    ensures CanRun(b, allowed, TransferCalls(currency, transfers)) <==> Sum(transfers) <= Held(b, currency)
    decreases |transfers|
  {
    var calls := TransferCalls(currency, transfers);
    if transfers != [] {
      assert calls[0] == Transfer(currency, transfers[0]);
      assert calls[1..] == TransferCalls(currency, transfers[1..]);
      if transfers[0] <= Held(b, currency) {
        TransfersRun(b[currency := Held(b, currency) - transfers[0]], allowed, currency, transfers[1..]);
      }
    }
  }

  // ---------- The node ----------

  /**
   Every answer a build may ask for. Exchanges are numbered in the order the builder can reach
   them; a balance is asked for at a position of an exchange. `price` is absent if the gas price or
   the chain id could not be read, or the chain is the wrong one.
   */
  datatype Node = Node(
    balance: (nat, nat, Token) -> Option<nat>,
    quote: (nat, Token, nat) -> Option<nat>,
    gas: nat -> Option<int>,
    price: Option<int>,
    simulates: bool)

  /** The balances it gives are those of the payer. */
  ghost predicate Tells(node: Node, b: Balances) {
    forall x, k, t :: node.balance(x, k, t).Some? ==> node.balance(x, k, t).value == Held(b, t)
  }

  ghost predicate Reliable(node: Node) {
    node.price.Some? && forall x, k, t :: node.balance(x, k, t).Some?
  }

  // The exchanges of one build.
  const FUND := 0
  const FEE := 1
  const REBUILD := 2
  const FEE_AGAIN := 3
  const NARROW := 4
  const FEE_LAST := 5
  const ROUTE := 6
  const OTHERS := 7

  // ---------- Finding a swap ----------

  /** What to swap from, the slippage in percent, and what a swap may buy. */
  datatype Policy = Policy(tokenIn: Option<seq<Token>>, fallback: bool, slippage: real, trusted: Option<set<Token>>)

  predicate ValidPolicy(p: Policy) {
    p.slippage >= 0.0
  }

  /** Hundredths of a percent, rounded half up. */
  function SlippageBps(p: Policy): (bps: nat)
    requires ValidPolicy(p)
    ensures IsBps(bps, p.slippage)
  {
    (p.slippage * 100.0 + 0.5).Floor
  }

  predicate IsBps(bps: nat, slippage: real) {
    bps as real <= 100.0 * slippage + 0.5 < bps as real + 1.0
  }

  function Without(tokens: seq<Token>, chosen: seq<Token>): seq<Token> {
    if tokens == [] then []
    else
      var rest := Without(tokens[1..], chosen);
      if tokens[0] in chosen then rest else [tokens[0]] + rest
  }

  function Currencies(p: Policy, defaults: seq<Token>): seq<Token> {
    var explicit := p.tokenIn.GetOr([]);
    if p.tokenIn.Some? && !p.fallback then explicit else explicit + Without(defaults, explicit)
  }

  predicate Eligible(t: Token, tokenOut: Token, only: Option<Token>) {
    t != tokenOut && (only.None? || only.value == t)
  }

  function Candidates(currencies: seq<Token>, tokenOut: Token, only: Option<Token>): seq<Token> {
    if currencies == [] then []
    else
      var rest := Candidates(currencies[1..], tokenOut, only);
      if Eligible(currencies[0], tokenOut, only) then [currencies[0]] + rest else rest
  }

  /** Candidates are the configured currencies other than the one bought, or just the one asked for. */
  lemma {:induction false} CandidatesAre(currencies: seq<Token>, tokenOut: Token, only: Option<Token>, t: Token)
    ensures t in Candidates(currencies, tokenOut, only) <==> t in currencies && Eligible(t, tokenOut, only)
  {
    if currencies != [] {
      CandidatesAre(currencies[1..], tokenOut, only, t);
    }
  }

  /** They are tried in the order configured: dropping the others moves none past another. */
  lemma {:induction false} CandidatesInOrder(currencies: seq<Token>, tokenOut: Token, only: Option<Token>, i: nat)
    returns (p: nat)
    requires i < |Candidates(currencies, tokenOut, only)|
    ensures p < |currencies| && currencies[p] == Candidates(currencies, tokenOut, only)[i]
    ensures Candidates(currencies[..p], tokenOut, only) == Candidates(currencies, tokenOut, only)[..i]
  {
    var first := if Eligible(currencies[0], tokenOut, only) then 1 else 0;
    if i == 0 && first == 1 {
      p := 0;
    } else {
      var q := CandidatesInOrder(currencies[1..], tokenOut, only, i - first);
      p := q + 1;
      assert currencies[..p][1..] == currencies[1..][..q];
    }
  }

  lemma {:induction false} WithoutIs(tokens: seq<Token>, chosen: seq<Token>, t: Token)
    ensures t in Without(tokens, chosen) <==> t in tokens && t !in chosen
  {
    if tokens != [] {
      WithoutIs(tokens[1..], chosen, t);
    }
  }

  lemma {:induction false} WithoutSplits(before: seq<Token>, after: seq<Token>, chosen: seq<Token>)
    ensures Without(before + after, chosen) == Without(before, chosen) + Without(after, chosen)
  {
    if before == [] {
      assert before + after == after;
    } else {
      assert (before + after)[1..] == before[1..] + after;
      WithoutSplits(before[1..], after, chosen);
    }
  }

  /** Chosen currencies come first, and a default follows unless it was chosen or defaults are off. */
  lemma ChosenComeFirst(p: Policy, defaults: seq<Token>, t: Token)
    ensures p.tokenIn.GetOr([]) <= Currencies(p, defaults)
    ensures p.tokenIn.None? || p.fallback ==>
              forall i :: 0 <= i <= |defaults| ==>
                Currencies(p, defaults) == Currencies(p, defaults[..i]) + Without(defaults[i..], p.tokenIn.GetOr([]))
    ensures t in Currencies(p, defaults)
            <==> t in p.tokenIn.GetOr([]) || (t in defaults && (p.tokenIn.None? || p.fallback))
  {
    WithoutIs(defaults, p.tokenIn.GetOr([]), t);
    forall i | 0 <= i <= |defaults|
      ensures Without(defaults, p.tokenIn.GetOr([]))
              == Without(defaults[..i], p.tokenIn.GetOr([])) + Without(defaults[i..], p.tokenIn.GetOr([]))
    {
      assert defaults[..i] + defaults[i..] == defaults;
      WithoutSplits(defaults[..i], defaults[i..], p.tokenIn.GetOr([]));
    }
  }

  /** The quote with the slippage allowance on top. */
  function MaxIn(quoted: nat, bps: nat): (most: nat)
    ensures IsMarkedUp(quoted, bps, most)
  {
    hide IsMarkedUp;
    DivModOf(quoted * bps, 10_000);
    MarkUp(quoted, bps, quoted * bps / 10_000);
    quoted + quoted * bps / 10_000
  }

  /** The quote and its slippage, rounded down. */
  predicate IsMarkedUp(quoted: nat, bps: nat, most: nat) {
    most >= quoted && 10_000 * (most - quoted) <= quoted * bps < 10_000 * (most - quoted + 1)
  }

  lemma MarkUp(quoted: nat, bps: nat, d: nat)
    requires 10_000 * d <= quoted * bps < 10_000 * (d + 1)
    ensures IsMarkedUp(quoted, bps, quoted + d)
  {
  }

  /** The most a swap may take by its quote and the slippage allowed. */
  ghost predicate MayCost(quoted: nat, slippage: real, most: nat) {
    exists bps: nat :: IsBps(bps, slippage) && IsMarkedUp(quoted, bps, most)
  }

  /** By exchange `x`, the candidate at `k` is known to hold the most that its swap may take. */
  ghost predicate Funds(node: Node, x: nat, k: nat, candidate: Token, deficit: nat, slippage: real) {
    var balance, quote := node.balance(x, k + 1, candidate), node.quote(x, candidate, deficit);
    balance.Some? && balance.value > 0 && quote.Some?
    && exists most: nat :: MayCost(quote.value, slippage, most) && most <= balance.value
  }

  lemma MayCostOnly(quoted: nat, p: Policy, most: nat)
    requires ValidPolicy(p)
    ensures MayCost(quoted, p.slippage, most) <==> most == MaxIn(quoted, SlippageBps(p))
  {
    hide SlippageBps, MaxIn;
    var bps := SlippageBps(p);
    if MayCost(quoted, p.slippage, most) {
      var other: nat :| IsBps(other, p.slippage) && IsMarkedUp(quoted, other, most);
      SameBps(bps, other, p.slippage);
      assert IsMarkedUp(quoted, bps, MaxIn(quoted, bps));
    } else {
      assert IsMarkedUp(quoted, bps, MaxIn(quoted, bps));
    }
  }

  lemma SameBps(a: nat, b: nat, slippage: real)
    requires IsBps(a, slippage) && IsBps(b, slippage)
    ensures a == b
  {
    assert a as real < b as real + 1.0 && b as real < a as real + 1.0;
  }

  lemma CanFundIs(node: Node, x: nat, k: nat, candidate: Token, deficit: nat, p: Policy)
    requires ValidPolicy(p)
    ensures CanFund(node, x, k, candidate, deficit, SlippageBps(p)) <==> Funds(node, x, k, candidate, deficit, p.slippage)
  {
    var quote := node.quote(x, candidate, deficit);
    if quote.Some? {
      MayCostOnly(quote.value, p, MaxIn(quote.value, SlippageBps(p)));
      forall most: nat | MayCost(quote.value, p.slippage, most)
        ensures most == MaxIn(quote.value, SlippageBps(p))
      {
        MayCostOnly(quote.value, p, most);
      }
    }
    hide MaxIn, SlippageBps, MayCost;
  }

  /** By exchange `x`, the candidate at `k` holds what its swap may cost. */
  predicate CanFund(node: Node, x: nat, k: nat, candidate: Token, deficit: nat, bps: nat) {
    var balance, quote := node.balance(x, k + 1, candidate), node.quote(x, candidate, deficit);
    balance.Some? && balance.value > 0 && quote.Some? && MaxIn(quote.value, bps) <= balance.value
  }

  function FirstFunder(node: Node, x: nat, candidates: seq<Token>, deficit: nat, bps: nat, k: nat): (first: nat)
    requires k <= |candidates|
    ensures k <= first <= |candidates|
    ensures first < |candidates| ==> CanFund(node, x, first, candidates[first], deficit, bps)
    ensures forall j :: k <= j < first ==> !CanFund(node, x, j, candidates[j], deficit, bps)
    decreases |candidates| - k
  {
    if k == |candidates| || CanFund(node, x, k, candidates[k], deficit, bps) then k
    else FirstFunder(node, x, candidates, deficit, bps, k + 1)
  }

  /** Calls placed before the transfers, and the balance of each token that the batch spends. */
  datatype Funding = Funding(calls: seq<Call>, spent: map<Token, nat>)

  const NO_CALLS := Funding([], map[])

  function Spent(f: Funding, t: Token): nat {
    if t in f.spent then f.spent[t] else 0
  }

  function SwapFrom(tokenIn: Token, currency: Token, amount: nat, deficit: nat, maxIn: nat): Funding {
    Funding([Approve(tokenIn, maxIn), Swap(tokenIn, currency, deficit, maxIn)],
            map[tokenIn := maxIn, currency := if amount >= deficit then amount - deficit else 0])
  }

  /** What the client and the chain fix before the build. */
  datatype Terms = Terms(
    currency: Token,
    amount: nat,
    policy: Option<Policy>,
    // Default currencies to swap from, and tokens that can pay fees, in order of preference.
    defaults: seq<Token>,
    feeTokens: seq<Token>,
    // The currency cannot pay fees itself (MACH, OUSD).
    feeless: bool,
    // The machine token, if the challenge enables it and the chain has its swapper.
    machineToken: Option<Token>,
    payerFeeToken: Option<Token>,
    sponsored: bool,
    maxFeePerGas: nat,
    maxTotalFee: nat)

  predicate ValidTerms(t: Terms) {
    t.policy.Some? ==> ValidPolicy(t.policy.value)
  }

  /** The candidates of a charge. */
  function Sources(t: Terms, only: Option<Token>): seq<Token>
    requires t.policy.Some?
  {
    Candidates(Currencies(t.policy.value, t.defaults), t.currency, only)
  }

  function Deficit(node: Node, x: nat, t: Terms, headroom: nat): nat {
    var held := node.balance(x, 0, t.currency).GetOr(0);
    if held >= t.amount + headroom then 0 else t.amount + headroom - held
  }

  /** The swap an exchange leads to: none, one from the first candidate that can fund it, or an error. */
  function Found(node: Node, x: nat, t: Terms, headroom: nat, only: Option<Token>): Result<Funding, Error>
    requires ValidTerms(t) && t.policy.Some?
  {
    var deficit, candidates, bps := Deficit(node, x, t, headroom), Sources(t, only), SlippageBps(t.policy.value);
    if deficit == 0 then Success(NO_CALLS)
    else if t.policy.value.trusted.Some? && t.currency !in t.policy.value.trusted.value then Failure(TransactionFailed)
    else
      var k := FirstFunder(node, x, candidates, deficit, bps, 0);
      if k == |candidates| then Failure(InsufficientFunds)
      else Success(SwapFrom(candidates[k], t.currency, t.amount, deficit,
                            MaxIn(node.quote(x, candidates[k], deficit).value, bps)))
  }

  method FindSwap(node: Node, x: nat, t: Terms, headroom: nat, only: Option<Token>)
    returns (result: Result<Funding, Error>)
    requires ValidTerms(t) && t.policy.Some?
    ensures result == Found(node, x, t, headroom, only)
  {
    var candidates := Sources(t, only);
    var held := node.balance(x, 0, t.currency).GetOr(0);
    if held >= t.amount + headroom {
      return Success(NO_CALLS);
    }
    if t.policy.value.trusted.Some? && t.currency !in t.policy.value.trusted.value {
      return Failure(TransactionFailed);
    }
    var deficit := t.amount + headroom - held;
    var bps := SlippageBps(t.policy.value);
    for k := 0 to |candidates|
      invariant FirstFunder(node, x, candidates, deficit, bps, 0) == FirstFunder(node, x, candidates, deficit, bps, k)
    {
      var balance, quote := node.balance(x, k + 1, candidates[k]), node.quote(x, candidates[k], deficit);
      if balance.Some? && balance.value > 0 && quote.Some? {
        var maxIn := MaxIn(quote.value, bps);
        if balance.value >= maxIn {
          return Success(SwapFrom(candidates[k], t.currency, t.amount, deficit, maxIn));
        }
      }
    }
    return Failure(InsufficientFunds);
  }

  /** The first candidate able to fund the swap, and the funding it gives. */
  ghost predicate TakesFirst(node: Node, x: nat, t: Terms, only: Option<Token>, missing: nat, k: nat, most: nat, f: Funding)
    requires t.policy.Some? && k < |Sources(t, only)|
  {
    var candidates, slippage := Sources(t, only), t.policy.value.slippage;
    var quote, spared := node.quote(x, candidates[k], missing), if t.amount >= missing then t.amount - missing else 0;
    && Funds(node, x, k, candidates[k], missing, slippage)
    && (forall j :: 0 <= j < k ==> !Funds(node, x, j, candidates[j], missing, slippage))
    && quote.Some? && MayCost(quote.value, slippage, most)
    && f == Funding([Approve(candidates[k], most), Swap(candidates[k], t.currency, missing, most)],
                    map[candidates[k] := most, t.currency := spared])
  }

  /**
   With true balances: no calls exactly if the currency is known to cover amount and headroom, an
   error exactly if a swap is needed and may not buy the currency, insufficient funds exactly if no
   candidate is known to hold what its swap may take, and otherwise a swap of just what is missing
   from the first candidate that is.
   */
  lemma FoundTopsUp(node: Node, b: Balances, x: nat, t: Terms, headroom: nat, only: Option<Token>)
    requires ValidTerms(t) && t.policy.Some? && Tells(node, b)
    ensures var result, held := Found(node, x, t, headroom, only), node.balance(x, 0, t.currency).GetOr(0);
            var missing, candidates := t.amount + headroom - held, Sources(t, only);
            var bought := t.policy.value.trusted.None? || t.currency in t.policy.value.trusted.value;
            && held <= Held(b, t.currency)
            && (missing <= 0 <==> result == Success(NO_CALLS))
            && (missing > 0 && !bought <==> result == Failure(TransactionFailed))
            && (missing > 0 && bought
                && (forall k :: 0 <= k < |candidates| ==>
                      !Funds(node, x, k, candidates[k], missing, t.policy.value.slippage))
                <==> result == Failure(InsufficientFunds))
            && (result.Success? && missing > 0 ==>
                  && (exists k: nat, most: nat :: k < |candidates|
                                                  && TakesFirst(node, x, t, only, missing, k, most, result.value))
                  && |result.value.calls| == 2 && result.value.calls[1].Swap?
                  && var s := result.value.calls[1];
                     && result.value == SwapFrom(s.tokenIn, t.currency, t.amount, s.amountOut, s.maxIn)
                     && s.tokenOut == t.currency && s.amountOut == missing && s.maxIn <= Held(b, s.tokenIn)
                     && s.tokenIn in Currencies(t.policy.value, t.defaults) && Eligible(s.tokenIn, t.currency, only))
  {
    var result, candidates := Found(node, x, t, headroom, only), Sources(t, only);
    var missing := t.amount + headroom - node.balance(x, 0, t.currency).GetOr(0);
    hide Candidates, Currencies, MaxIn, SlippageBps;
    if missing > 0 {
      forall k | 0 <= k < |candidates|
        ensures CanFund(node, x, k, candidates[k], missing, SlippageBps(t.policy.value))
                <==> Funds(node, x, k, candidates[k], missing, t.policy.value.slippage)
      {
        CanFundIs(node, x, k, candidates[k], missing, t.policy.value);
      }
      hide Funds;
      if result.Success? {
        var s := result.value.calls[1];
        CandidatesAre(Currencies(t.policy.value, t.defaults), t.currency, only, s.tokenIn);
        var k := FirstFunder(node, x, candidates, missing, SlippageBps(t.policy.value), 0);
        MayCostOnly(node.quote(x, candidates[k], missing).value, t.policy.value, s.maxIn);
        assert TakesFirst(node, x, t, only, missing, k, s.maxIn, result.value);
      }
    }
  }

  // ---------- Solvency of a funding ----------

  /**
   The balances cover what the funding says is spent: the whole amount without a swap, else the
   swap's maximum input, with what is bought making up the rest of the amount.
   */
  predicate Covers(b: Balances, currency: Token, amount: nat, f: Funding) {
    if f.calls == [] then f.spent == map[currency := amount] && amount <= Held(b, currency)
    else
      && |f.calls| == 2 && f.calls[1].Swap?
      && var s := f.calls[1];
         && s.tokenIn != currency && s.tokenOut == currency
         && f == SwapFrom(s.tokenIn, currency, amount, s.amountOut, s.maxIn)
         && s.maxIn <= Held(b, s.tokenIn)
         && amount <= Held(b, currency) + s.amountOut
  }

  /** A swap and the transfers it tops up run from any balances that cover both. */
  lemma SwapThenTransfers(b: Balances, f: Funding, currency: Token, amount: nat, transfers: seq<nat>)
    requires |f.calls| == 2 && f.calls[1].Swap? && Sum(transfers) == amount
    requires var s := f.calls[1];
             && s.tokenIn != currency && f == SwapFrom(s.tokenIn, currency, amount, s.amountOut, s.maxIn)
             && s.maxIn <= Held(b, s.tokenIn) && amount <= Held(b, currency) + s.amountOut
    ensures CanRun(b, map[], f.calls + TransferCalls(currency, transfers))
  {
    var s, tail := f.calls[1], TransferCalls(currency, transfers);
    var calls := f.calls + tail;
    var allowed: Balances := map[s.tokenIn := s.maxIn];
    assert calls[1..] == [s] + tail && calls[1..][1..] == tail;
    forall input: nat | input <= s.maxIn
      ensures CanRun(AfterSwap(b, s, input), LessAllowed(allowed, s.tokenIn, input), tail)
    {
      TransfersRun(AfterSwap(b, s, input), LessAllowed(allowed, s.tokenIn, input), currency, transfers);
    }
    assert CanRun(b, allowed, calls[1..]);
  }

  /** A fee kept out of what the funding spends can be charged first; the batch then runs. */
  lemma KeptFeeIsSolvent(b: Balances, f: Funding, currency: Token, amount: nat, transfers: seq<nat>,
                         feeToken: Token, fee: nat)
    requires Covers(b, currency, amount, f) && Sum(transfers) == amount
    requires fee + Spent(f, feeToken) <= Held(b, feeToken)
    ensures Solvent(b, feeToken, fee, f.calls + TransferCalls(currency, transfers))
  {
    var after := b[feeToken := Held(b, feeToken) - fee];
    if f.calls == [] {
      assert f.calls + TransferCalls(currency, transfers) == TransferCalls(currency, transfers);
      TransfersRun(after, map[], currency, transfers);
    } else {
      SwapThenTransfers(after, f, currency, amount, transfers);
    }
  }

  // ---------- Choosing the fee token ----------

  const DEFAULT_GAS_LIMIT := 1_000_000
  const ATTODOLLARS_PER_MICRODOLLAR := 1_000_000_000_000

  function FeeRequirement(gasLimit: nat, gasPrice: nat): (fee: nat)
    ensures fee >= 1 && fee * 1_000_000_000_000 >= gasLimit * gasPrice
    ensures fee > 1 ==> (fee - 1) * 1_000_000_000_000 < gasLimit * gasPrice
  {
    var rounded := (gasLimit * gasPrice + ATTODOLLARS_PER_MICRODOLLAR - 1) / ATTODOLLARS_PER_MICRODOLLAR;
    if rounded < 1 then 1 else rounded
  }

  /** The larger of a million and the estimate, if there is one, with its margin. */
  predicate IsLimit(limit: nat, estimate: Option<int>, margin: nat) {
    && limit >= 1_000_000 && (estimate.Some? ==> limit >= estimate.value + margin)
    && (limit == 1_000_000 || estimate == Some(limit - margin))
  }

  /** An estimate with its margin, never below the default, which also stands for a missing one. */
  function GasLimit(estimate: Option<int>, margin: nat): (limit: nat)
    ensures IsLimit(limit, estimate, margin)
  {
    if estimate.None? || estimate.value + margin < DEFAULT_GAS_LIMIT then DEFAULT_GAS_LIMIT
    else estimate.value + margin
  }

  predicate Affords(node: Node, x: nat, k: nat, token: Token, required: nat, reserved: Funding) {
    var balance := node.balance(x, k, token);
    balance.Some? && balance.value >= required + Spent(reserved, token)
  }

  function FirstPayer(node: Node, x: nat, tokens: seq<Token>, required: nat, reserved: Funding, k: nat): (first: nat)
    requires k <= |tokens|
    ensures k <= first <= |tokens|
    ensures first < |tokens| ==> Affords(node, x, first, tokens[first], required, reserved)
    ensures forall j :: k <= j < first ==> !Affords(node, x, j, tokens[j], required, reserved)
    decreases |tokens| - k
  {
    if k == |tokens| || Affords(node, x, k, tokens[k], required, reserved) then k
    else FirstPayer(node, x, tokens, required, reserved, k + 1)
  }

  function Resolved(node: Node, x: nat, tokens: seq<Token>, required: nat, reserved: Funding): Option<Token> {
    var k := FirstPayer(node, x, tokens, required, reserved, 0);
    if k < |tokens| then Some(tokens[k]) else None
  }

  method ResolveFeeToken(node: Node, x: nat, tokens: seq<Token>, required: nat, reserved: Funding)
    returns (token: Option<Token>)
    ensures token == Resolved(node, x, tokens, required, reserved)
  {
    for k := 0 to |tokens|
      invariant FirstPayer(node, x, tokens, required, reserved, 0) == FirstPayer(node, x, tokens, required, reserved, k)
    {
      var balance := node.balance(x, k, tokens[k]);
      if balance.Some? && balance.value >= required + Spent(reserved, tokens[k]) {
        return Some(tokens[k]);
      }
    }
    return None;
  }

  /**
   With true balances a token resolved covers the fee besides what is reserved; with all of them
   known, none resolves exactly if none covers it, and no earlier token would have.
   */
  lemma ResolvedPays(node: Node, b: Balances, x: nat, tokens: seq<Token>, required: nat, reserved: Funding)
    requires Tells(node, b)
    ensures var token := Resolved(node, x, tokens, required, reserved);
            && (token.Some? ==> token.value in tokens && required + Spent(reserved, token.value) <= Held(b, token.value))
            && (Reliable(node) ==>
                  (token.None? <==> forall k :: 0 <= k < |tokens| ==> required + Spent(reserved, tokens[k]) > Held(b, tokens[k])))
            && (Reliable(node) && token.Some? ==>
                  exists k :: 0 <= k < |tokens| && tokens[k] == token.value
                              && forall j :: 0 <= j < k ==> required + Spent(reserved, tokens[j]) > Held(b, tokens[j]))
  {
    var first := FirstPayer(node, x, tokens, required, reserved, 0);
    if Reliable(node) {
      forall j | 0 <= j < first
        ensures required + Spent(reserved, tokens[j]) > Held(b, tokens[j])
      {
        assert !Affords(node, x, j, tokens[j], required, reserved) && node.balance(x, j, tokens[j]).Some?;
      }
    }
  }

  // ---------- Keeping the fee ----------

  datatype Plan = Plan(funding: Funding, feeToken: Token, gasLimit: nat)

  /** The plan's balances cover its funding, and its fee besides. */
  predicate KeepsFee(b: Balances, t: Terms, plan: Plan, gasPrice: nat) {
    && Covers(b, t.currency, t.amount, plan.funding)
    && FeeRequirement(plan.gasLimit, gasPrice) + Spent(plan.funding, plan.feeToken) <= Held(b, plan.feeToken)
  }

  /** A swap found anew; without one, all of the amount comes out of the balance. */
  function Refund(node: Node, x: nat, t: Terms, headroom: nat, only: Option<Token>): Result<Funding, Error>
    requires ValidTerms(t) && t.policy.Some?
  {
    var found := Found(node, x, t, headroom, only);
    if found == Success(NO_CALLS) then Success(Funding([], map[t.currency := t.amount])) else found
  }

  lemma RefundCovers(node: Node, b: Balances, x: nat, t: Terms, headroom: nat, only: Option<Token>)
    requires ValidTerms(t) && t.policy.Some? && Tells(node, b)
    ensures var f := Refund(node, x, t, headroom, only);
            f.Success? ==>
              && Covers(b, t.currency, t.amount, f.value)
              && (f.value.calls != [] && only.Some? ==> f.value.calls[1].tokenIn == only.value)
    ensures Reliable(node) && Held(b, t.currency) >= t.amount + headroom ==>
              Refund(node, x, t, headroom, only) == Success(Funding([], map[t.currency := t.amount]))
  {
    FoundTopsUp(node, b, x, t, headroom, only);
    hide Found, Currencies, Candidates, SlippageBps;
    assert Reliable(node) ==> node.balance(x, 0, t.currency).Some?;
  }

  /** The first configured currency, besides the fee token and the charge currency, that funds the charge. */
  function FundedByOther(node: Node, t: Terms, token: Token, k: nat): Result<Funding, Error>
    requires ValidTerms(t) && t.policy.Some? && k <= |Currencies(t.policy.value, t.defaults)|
    decreases |Currencies(t.policy.value, t.defaults)| - k
  {
    var currencies := Currencies(t.policy.value, t.defaults);
    if k == |currencies| then Failure(TransactionFailed)
    else if currencies[k] == token || currencies[k] == t.currency then FundedByOther(node, t, token, k + 1)
    else
      var f := Refund(node, OTHERS + k, t, 0, Some(currencies[k]));
      if f == Failure(InsufficientFunds) then FundedByOther(node, t, token, k + 1) else f
  }

  lemma {:induction false} OtherCovers(node: Node, b: Balances, t: Terms, token: Token, k: nat)
    requires ValidTerms(t) && t.policy.Some? && Tells(node, b) && token != t.currency
    requires k <= |Currencies(t.policy.value, t.defaults)|
    ensures var f := FundedByOther(node, t, token, k);
            f.Success? ==> Covers(b, t.currency, t.amount, f.value) && Spent(f.value, token) == 0
    decreases |Currencies(t.policy.value, t.defaults)| - k
  {
    var currencies := Currencies(t.policy.value, t.defaults);
    if k < |currencies| {
      OtherCovers(node, b, t, token, k + 1);
      RefundCovers(node, b, OTHERS + k, t, 0, Some(currencies[k]));
      hide Refund, Currencies;
    }
  }

  /** Currency `k` may stand in for the fee token, and its refund is more than insufficient funds. */
  predicate Serves(node: Node, t: Terms, token: Token, k: nat)
    requires ValidTerms(t) && t.policy.Some? && k < |Currencies(t.policy.value, t.defaults)|
  {
    var other := Currencies(t.policy.value, t.defaults)[k];
    other != token && other != t.currency && Refund(node, OTHERS + k, t, 0, Some(other)) != Failure(InsufficientFunds)
  }

  /** The currencies are tried in order, up to the first one that serves. */
  lemma {:induction false} OthersInOrder(node: Node, t: Terms, token: Token, k: nat) returns (first: nat)
    requires ValidTerms(t) && t.policy.Some? && k <= |Currencies(t.policy.value, t.defaults)|
    ensures k <= first <= |Currencies(t.policy.value, t.defaults)|
    ensures forall j :: k <= j < first ==> !Serves(node, t, token, j)
    ensures if first == |Currencies(t.policy.value, t.defaults)|
            then FundedByOther(node, t, token, k) == Failure(TransactionFailed)
            else Serves(node, t, token, first)
                 && FundedByOther(node, t, token, k)
                    == Refund(node, OTHERS + first, t, 0, Some(Currencies(t.policy.value, t.defaults)[first]))
    decreases |Currencies(t.policy.value, t.defaults)| - k
  {
    hide Refund, Currencies;
    if k == |Currencies(t.policy.value, t.defaults)| || Serves(node, t, token, k) {
      first := k;
    } else {
      first := OthersInOrder(node, t, token, k + 1);
    }
  }

  function PaidFromGiven(node: Node, t: Terms, token: Token, f: Funding, gasLimit: nat, gasPrice: nat)
    : Result<Plan, Error>
    requires ValidTerms(t) && t.policy.Some?
  {
    var balance := node.balance(FEE, 0, token);
    if balance.None? then Failure(TransactionFailed)
    else if balance.value >= FeeRequirement(gasLimit, gasPrice) + Spent(f, token) then Success(Plan(f, token, gasLimit))
    else
      var rebuilt := if token == t.currency then Refund(node, REBUILD, t, FeeRequirement(gasLimit, gasPrice), None)
                     else FundedByOther(node, t, token, 0);
      if rebuilt.Failure? then Failure(rebuilt.error)
      else
        var gas, again := GasLimit(node.gas(REBUILD), 5_000), node.balance(FEE_AGAIN, 0, token);
        if again.None? || again.value < FeeRequirement(gas, gasPrice) + Spent(rebuilt.value, token)
        then Failure(TransactionFailed)
        else Success(Plan(rebuilt.value, token, gas))
  }

  /** Pay the fee in a token the client named and the swapping batch spends. */
  method PayFromGiven(node: Node, t: Terms, token: Token, f: Funding, gasLimit: nat, gasPrice: nat)
    returns (result: Result<Plan, Error>)
    requires ValidTerms(t) && t.policy.Some?
    ensures result == PaidFromGiven(node, t, token, f, gasLimit, gasPrice)
  {
    hide Refund, FeeRequirement, GasLimit, Currencies;
    var balance := node.balance(FEE, 0, token);
    if balance.None? {
      return Failure(TransactionFailed);
    }
    if balance.value >= FeeRequirement(gasLimit, gasPrice) + Spent(f, token) {
      return Success(Plan(f, token, gasLimit));
    }
    var rebuilt: Result<Funding, Error> := Failure(TransactionFailed);
    if token == t.currency {
      rebuilt := FindFunding(node, REBUILD, t, FeeRequirement(gasLimit, gasPrice), None);
    } else {
      var currencies := Currencies(t.policy.value, t.defaults);
      for k := 0 to |currencies|
        invariant rebuilt == Failure(TransactionFailed)
        invariant FundedByOther(node, t, token, 0) == FundedByOther(node, t, token, k)
      {
        if currencies[k] != token && currencies[k] != t.currency {
          var found := FindFunding(node, OTHERS + k, t, 0, Some(currencies[k]));
          if found != Failure(InsufficientFunds) {
            rebuilt := found;
            break;
          }
        }
      }
    }
    if rebuilt.Failure? {
      return Failure(rebuilt.error);
    }
    // Another batch: its gas, and so its fee, are new.
    var gas := GasLimit(node.gas(REBUILD), 5_000);
    balance := node.balance(FEE_AGAIN, 0, token);
    if balance.None? || balance.value < FeeRequirement(gas, gasPrice) + Spent(rebuilt.value, token) {
      return Failure(TransactionFailed);
    }
    return Success(Plan(rebuilt.value, token, gas));
  }

  method FindFunding(node: Node, x: nat, t: Terms, headroom: nat, only: Option<Token>)
    returns (result: Result<Funding, Error>)
    requires ValidTerms(t) && t.policy.Some?
    ensures result == Refund(node, x, t, headroom, only)
  {
    hide Found;
    result := FindSwap(node, x, t, headroom, only);
    if result.Success? && result.value == NO_CALLS {
      result := Success(Funding([], map[t.currency := t.amount]));
    }
  }

  /**
   The plan keeps its fee, whatever happened on the way; a rebuilt funding leaves the fee token
   alone, unless that is the charge currency; and nothing is rebuilt without need.
   */
  lemma GivenKeepsFee(node: Node, b: Balances, t: Terms, token: Token, f: Funding, gasLimit: nat, gasPrice: nat)
    requires ValidTerms(t) && t.policy.Some? && Tells(node, b) && Covers(b, t.currency, t.amount, f)
    ensures var result := PaidFromGiven(node, t, token, f, gasLimit, gasPrice);
            && (result.Success? ==>
                  && result.value.feeToken == token && KeepsFee(b, t, result.value, gasPrice)
                  && (result.value.funding != f && token != t.currency ==> Spent(result.value.funding, token) == 0))
            && (Reliable(node) && FeeRequirement(gasLimit, gasPrice) + Spent(f, token) <= Held(b, token) ==>
                  result == Success(Plan(f, token, gasLimit)))
  {
    hide Refund, FundedByOther, FeeRequirement, GasLimit, Currencies;
    assert Reliable(node) ==> node.balance(FEE, 0, token).Some?;
    if token == t.currency {
      RefundCovers(node, b, REBUILD, t, FeeRequirement(gasLimit, gasPrice), None);
    } else {
      OtherCovers(node, b, t, token, 0);
    }
  }

  /**
   Without room for the fee, the batch is rebuilt to leave it: by buying the fee as well, if it is
   due in the very currency charged, and by swapping from another currency if not. The rebuilt batch is
   signed if the fee by its own gas is no higher.
   */
  lemma GivenIsRebuilt(node: Node, b: Balances, t: Terms, token: Token, f: Funding, gasLimit: nat, gasPrice: nat)
    requires ValidTerms(t) && t.policy.Some? && Tells(node, b) && Reliable(node)
    requires FeeRequirement(gasLimit, gasPrice) + Spent(f, token) > Held(b, token)
    ensures var result, fee := PaidFromGiven(node, t, token, f, gasLimit, gasPrice), FeeRequirement(gasLimit, gasPrice);
            var rebuilt := if token == t.currency then Refund(node, REBUILD, t, fee, None)
                           else FundedByOther(node, t, token, 0);
            var gas := GasLimit(node.gas(REBUILD), 5_000);
            && (rebuilt.Failure? ==> result == Failure(rebuilt.error))
            && (rebuilt.Success? && FeeRequirement(gas, gasPrice) + Spent(rebuilt.value, token) <= Held(b, token) ==>
                  result == Success(Plan(rebuilt.value, token, gas)))
            && (rebuilt.Success? && FeeRequirement(gas, gasPrice) + Spent(rebuilt.value, token) > Held(b, token) ==>
                  result == Failure(TransactionFailed))
  {
    hide Refund, FundedByOther, FeeRequirement, GasLimit, Currencies;
    assert node.balance(FEE, 0, token).Some? && node.balance(FEE_AGAIN, 0, token).Some?;
  }

  function PaidFromSupported(node: Node, t: Terms, f: Funding, gasLimit: nat, gasPrice: nat): Result<Plan, Error>
    requires ValidTerms(t) && t.policy.Some?
  {
    var required := FeeRequirement(gasLimit, gasPrice);
    var token := Resolved(node, FEE, t.feeTokens, required, f);
    if token.Some? then Success(Plan(f, token.value, gasLimit))
    else if t.currency !in t.feeTokens then Failure(TransactionFailed)
    else
      var rebuilt := Refund(node, REBUILD, t, required, None);
      if rebuilt.Failure? then Failure(rebuilt.error)
      else if rebuilt.value.calls == [] then Planned(node, t, rebuilt.value, gasPrice)
      else
        var freed := Resolved(node, FEE_AGAIN, t.feeTokens, required, rebuilt.value);
        if freed.None? then Failure(TransactionFailed)
        else if freed.value == t.currency then Planned(node, t, rebuilt.value, gasPrice)
        else
          var narrow := Refund(node, NARROW, t, 0, SourceOf(rebuilt.value));
          if narrow.Failure? then Failure(narrow.error) else Planned(node, t, narrow.value, gasPrice)
  }

  /** The token that the funding approves first, which its swap takes. */
  function SourceOf(f: Funding): Option<Token> {
    if f.calls != [] && f.calls[0].Approve? then Some(f.calls[0].token) else None
  }

  /** Gas, fee and fee token once more, for a funding that has changed. */
  function Planned(node: Node, t: Terms, f: Funding, gasPrice: nat): Result<Plan, Error> {
    var gas := GasLimit(node.gas(REBUILD), 5_000);
    var token := Resolved(node, FEE_LAST, t.feeTokens, FeeRequirement(gas, gasPrice), f);
    if token.None? then Failure(TransactionFailed) else Success(Plan(f, token.value, gas))
  }

  /** Pay the fee of a swapping batch in a supported stablecoin. */
  method PayFromSupported(node: Node, t: Terms, f: Funding, gasLimit: nat, gasPrice: nat)
    returns (result: Result<Plan, Error>)
    requires ValidTerms(t) && t.policy.Some?
    ensures result == PaidFromSupported(node, t, f, gasLimit, gasPrice)
  {
    hide Refund, Resolved, FeeRequirement, GasLimit;
    var required := FeeRequirement(gasLimit, gasPrice);
    var token := ResolveFeeToken(node, FEE, t.feeTokens, required, f);
    if token.Some? {
      return Success(Plan(f, token.value, gasLimit));
    }
    if t.currency !in t.feeTokens {
      return Failure(TransactionFailed);
    }
    // Buy the currency that pays the fee along with the amount.
    var found := FindFunding(node, REBUILD, t, required, None);
    if found.Failure? {
      return Failure(found.error);
    }
    if found.value.calls != [] {
      token := ResolveFeeToken(node, FEE_AGAIN, t.feeTokens, required, found.value);
      if token.None? {
        return Failure(TransactionFailed);
      }
      if token.value != t.currency {
        // That swap left another token able to pay: go back to buying the amount alone.
        found := FindFunding(node, NARROW, t, 0, SourceOf(found.value));
        if found.Failure? {
          return Failure(found.error);
        }
      }
    }
    var gas := GasLimit(node.gas(REBUILD), 5_000);
    token := ResolveFeeToken(node, FEE_LAST, t.feeTokens, FeeRequirement(gas, gasPrice), found.value);
    if token.None? {
      return Failure(TransactionFailed);
    }
    return Success(Plan(found.value, token.value, gas));
  }

  lemma PlannedKeepsFee(node: Node, b: Balances, t: Terms, f: Funding, gasPrice: nat)
    requires Tells(node, b) && Covers(b, t.currency, t.amount, f)
    ensures var result := Planned(node, t, f, gasPrice);
            result.Success? ==> result.value.feeToken in t.feeTokens && KeepsFee(b, t, result.value, gasPrice)
  {
    var gas := GasLimit(node.gas(REBUILD), 5_000);
    ResolvedPays(node, b, FEE_LAST, t.feeTokens, FeeRequirement(gas, gasPrice), f);
    hide Resolved, FeeRequirement, GasLimit;
  }

  /**
   The plan keeps its fee in a supported token; nothing is rebuilt while some supported token can
   pay, nor for a currency that cannot.
   */
  lemma SupportedKeepsFee(node: Node, b: Balances, t: Terms, f: Funding, gasLimit: nat, gasPrice: nat)
    requires ValidTerms(t) && t.policy.Some? && Tells(node, b) && Covers(b, t.currency, t.amount, f)
    ensures var result, required := PaidFromSupported(node, t, f, gasLimit, gasPrice), FeeRequirement(gasLimit, gasPrice);
            && (result.Success? ==>
                  && result.value.feeToken in t.feeTokens && KeepsFee(b, t, result.value, gasPrice)
                  && (t.currency !in t.feeTokens ==> result.value.funding == f))
            && (Reliable(node)
                && (exists k :: 0 <= k < |t.feeTokens| && required + Spent(f, t.feeTokens[k]) <= Held(b, t.feeTokens[k])) ==>
                  result.Success? && result.value.funding == f && result.value.gasLimit == gasLimit)
  {
    hide Refund, Resolved, FeeRequirement, GasLimit, Planned, Covers;
    var required := FeeRequirement(gasLimit, gasPrice);
    ResolvedPays(node, b, FEE, t.feeTokens, required, f);
    var rebuilt := Refund(node, REBUILD, t, required, None);
    RefundCovers(node, b, REBUILD, t, required, None);
    if rebuilt.Success? {
      PlannedKeepsFee(node, b, t, rebuilt.value, gasPrice);
      var narrow := Refund(node, NARROW, t, 0, SourceOf(rebuilt.value));
      RefundCovers(node, b, NARROW, t, 0, SourceOf(rebuilt.value));
      if narrow.Success? {
        PlannedKeepsFee(node, b, t, narrow.value, gasPrice);
      }
    }
  }

  /** A supported token covers the fee besides what the funding spends, and no earlier one does. */
  ghost predicate PaysFirst(b: Balances, tokens: seq<Token>, required: nat, f: Funding, k: nat) {
    && k < |tokens| && required + Spent(f, tokens[k]) <= Held(b, tokens[k])
    && forall j :: 0 <= j < k ==> required + Spent(f, tokens[j]) > Held(b, tokens[j])
  }

  /**
   When no supported token has room for the fee, the fee is bought as well, unless the currency
   cannot pay fees, which is an error. If buying it lets another token pay, only the amount is
   bought, from the same currency as before. The changed batch is signed with the first token that
   has room for the fee by its own gas.
   */
  lemma SupportedIsRebuilt(node: Node, b: Balances, t: Terms, f: Funding, gasLimit: nat, gasPrice: nat, k: nat)
    requires ValidTerms(t) && t.policy.Some? && Tells(node, b) && Reliable(node)
    requires forall j :: 0 <= j < |t.feeTokens| ==>
               FeeRequirement(gasLimit, gasPrice) + Spent(f, t.feeTokens[j]) > Held(b, t.feeTokens[j])
    ensures var result, fee := PaidFromSupported(node, t, f, gasLimit, gasPrice), FeeRequirement(gasLimit, gasPrice);
            var rebuilt := Refund(node, REBUILD, t, fee, None);
            if t.currency !in t.feeTokens then result == Failure(TransactionFailed)
            else if rebuilt.Failure? then result == Failure(rebuilt.error)
            else if rebuilt.value.calls == [] then result == Planned(node, t, rebuilt.value, gasPrice)
            else if PaysFirst(b, t.feeTokens, fee, rebuilt.value, k) then
              if t.feeTokens[k] == t.currency then result == Planned(node, t, rebuilt.value, gasPrice)
              else
                var narrow := Refund(node, NARROW, t, 0, Some(rebuilt.value.calls[0].token));
                if narrow.Failure? then result == Failure(narrow.error)
                else result == Planned(node, t, narrow.value, gasPrice)
            else (forall n :: !PaysFirst(b, t.feeTokens, fee, rebuilt.value, n)) ==> result == Failure(TransactionFailed)
  {
    var fee := FeeRequirement(gasLimit, gasPrice);
    var rebuilt := Refund(node, REBUILD, t, fee, None);
    hide Resolved, FeeRequirement, Planned, PaysFirst, Spent, Held;
    NonePays(node, b, FEE, t.feeTokens, fee, f);
    RefundCovers(node, b, REBUILD, t, fee, None);
    hide Refund;
    if t.currency in t.feeTokens && rebuilt.Success? && rebuilt.value.calls != [] {
      FirstPays(node, b, FEE_AGAIN, t.feeTokens, fee, rebuilt.value, k);
      hide Covers;
    }
  }

  /** With a reliable node the token resolved is the first that pays. */
  lemma FirstPays(node: Node, b: Balances, x: nat, tokens: seq<Token>, required: nat, f: Funding, k: nat)
    requires Tells(node, b) && Reliable(node)
    ensures var token := Resolved(node, x, tokens, required, f);
            && (PaysFirst(b, tokens, required, f, k) ==> token == Some(tokens[k]))
            && ((forall n :: !PaysFirst(b, tokens, required, f, n)) ==> token.None?)
  {
    ResolvedPays(node, b, x, tokens, required, f);
    hide Spent, Held;
    var token := Resolved(node, x, tokens, required, f);
    hide Resolved;
    if token.Some? {
      var n :| 0 <= n < |tokens| && tokens[n] == token.value
               && forall j :: 0 <= j < n ==> required + Spent(f, tokens[j]) > Held(b, tokens[j]);
      assert PaysFirst(b, tokens, required, f, n);
      assert PaysFirst(b, tokens, required, f, k) ==> k == n;
    }
  }

  lemma NonePays(node: Node, b: Balances, x: nat, tokens: seq<Token>, required: nat, f: Funding)
    requires Tells(node, b)
    requires forall j :: 0 <= j < |tokens| ==> required + Spent(f, tokens[j]) > Held(b, tokens[j])
    ensures Resolved(node, x, tokens, required, f).None?
  {
    ResolvedPays(node, b, x, tokens, required, f);
    hide Spent, Held;
  }

  lemma PlannedExactly(node: Node, b: Balances, t: Terms, f: Funding, gasPrice: nat, k: nat)
    requires Tells(node, b) && Reliable(node)
    requires PaysFirst(b, t.feeTokens, FeeRequirement(GasLimit(node.gas(REBUILD), 5_000), gasPrice), f, k)
    ensures Planned(node, t, f, gasPrice) == Success(Plan(f, t.feeTokens[k], GasLimit(node.gas(REBUILD), 5_000)))
  {
    FirstPays(node, b, FEE_LAST, t.feeTokens, FeeRequirement(GasLimit(node.gas(REBUILD), 5_000), gasPrice), f, k);
  }

  // ---------- Building the batch ----------

  /**
   What is signed. `swapping`: the payer could not cover the amount and a swap was planned; `route`:
   the charge is paid in the machine token; `guarded`: the fee token's balance was compared with the
   fee besides what the batch spends.
   */
  datatype Signed = Signed(
    funding: Funding,
    transfers: seq<nat>,
    route: bool,
    feeToken: Option<Token>,
    gasLimit: nat,
    gasPrice: int,
    swapping: bool,
    guarded: bool)

  function RouteCalls(token: Token, amount: nat): seq<Call> {
    [Approve(token, amount), SwapTo(token, amount)]
  }

  function Batch(t: Terms, s: Signed): seq<Call> {
    if s.route && t.machineToken.Some? then RouteCalls(t.machineToken.value, t.amount)
    else s.funding.calls + TransferCalls(t.currency, s.transfers)
  }

  /** The token the charge is paid in. */
  function PaidIn(t: Terms, s: Signed): Token {
    if s.route && t.machineToken.Some? then t.machineToken.value else t.currency
  }

  /** The machine token pays for a single transfer that it is known to cover and that simulates. */
  predicate Routed(node: Node, t: Terms, splits: seq<int>) {
    && splits == [] && t.machineToken.Some? && t.amount > 0 && node.simulates
    && var balance := node.balance(ROUTE, 0, t.machineToken.value);
       balance.Some? && balance.value >= t.amount
  }

  /** The funding, gas and fee token of a batch, before the last checks. */
  datatype Draft = Draft(funding: Funding, gasLimit: nat, feeToken: Option<Token>, guarded: bool)

  function Drafted(node: Node, t: Terms, f: Funding, swapping: bool, route: bool, gasLimit: nat, gasPrice: int)
    : Result<Draft, Error>
    requires ValidTerms(t) && (swapping ==> t.policy.Some?) && (!t.sponsored ==> gasPrice >= 0)
  {
    if t.sponsored then Success(Draft(f, gasLimit, None, false))
    else if t.payerFeeToken.Some? then
      var token := t.payerFeeToken.value;
      if swapping && (token == t.currency || Spent(f, token) > 0) then
        var plan := PaidFromGiven(node, t, token, f, gasLimit, gasPrice);
        if plan.Failure? then Failure(plan.error)
        else Success(Draft(plan.value.funding, plan.value.gasLimit, Some(token), true))
      else Success(Draft(f, gasLimit, Some(token), false))
    else if swapping then
      var plan := PaidFromSupported(node, t, f, gasLimit, gasPrice);
      if plan.Failure? then Failure(plan.error)
      else Success(Draft(plan.value.funding, plan.value.gasLimit, Some(plan.value.feeToken), true))
    else if route || t.feeless then
      var token := Resolved(node, FEE, t.feeTokens, FeeRequirement(gasLimit, gasPrice), f);
      if token.None? then Failure(TransactionFailed) else Success(Draft(f, gasLimit, token, false))
    else Success(Draft(f, gasLimit, Some(t.currency), false))
  }

  function Margin(swapping: bool, route: bool, transfers: seq<nat>): nat {
    if swapping || route then 5_000 else 5_000 * |transfers|
  }

  /** The first funding, before any fee is considered: a route, a swap or the balance itself. */
  function Funded(node: Node, t: Terms, splits: seq<int>): Result<Funding, Error>
    requires ValidTerms(t)
  {
    if Routed(node, t, splits) || t.policy.None? then Success(NO_CALLS) else Found(node, FUND, t, 0, None)
  }

  /** What the builder signs, or why it does not, from the node's answers alone. */
  function Build(node: Node, t: Terms, splits: seq<int>): Result<Signed, Error>
    requires ValidTerms(t)
  {
    var transfers, f, route := GetTransfers(t.amount, splits), Funded(node, t, splits), Routed(node, t, splits);
    if transfers.Failure? then Failure(transfers.error)
    else if f.Failure? then Failure(f.error)
    else if node.price.None? then Failure(TransactionFailed)
    else if !t.sponsored && !(0 <= node.price.value <= t.maxFeePerGas) then Failure(OverPolicy)
    else
      var swapping := f.value.calls != [];
      var gas := GasLimit(node.gas(FUND), Margin(swapping, route, transfers.value));
      var draft := Drafted(node, t, f.value, swapping, route, gas, node.price.value);
      if draft.Failure? then Failure(draft.error)
      else if BuysTooMuch(draft.value.funding, t.amount) then Failure(TransactionFailed)
      else if !t.sponsored && draft.value.gasLimit * node.price.value > t.maxTotalFee then Failure(OverPolicy)
      else Success(Signed(draft.value.funding, transfers.value, route, draft.value.feeToken, draft.value.gasLimit,
                          node.price.value, swapping, draft.value.guarded))
  }

  /** The batch ends in a swap for more than the charge, which no server would accept. */
  predicate BuysTooMuch(f: Funding, amount: nat) {
    f.calls != [] && f.calls[|f.calls| - 1].Swap? && f.calls[|f.calls| - 1].amountOut > amount
  }

  method BuildTransfer(node: Node, t: Terms, splits: seq<int>) returns (result: Result<Signed, Error>)
    requires ValidTerms(t)
    ensures result == Build(node, t, splits)
  {
    hide Found, Resolved, PaidFromGiven, PaidFromSupported, FeeRequirement, GasLimit, GetTransfers;
    var transfers := GetTransfers(t.amount, splits);
    if transfers.Failure? {
      return Failure(transfers.error);
    }
    var f, swapping, route := NO_CALLS, false, Routed(node, t, splits);
    if !route && t.policy.Some? {
      var found := FindSwap(node, FUND, t, 0, None);
      if found.Failure? {
        return Failure(found.error);
      }
      f, swapping := found.value, found.value.calls != [];
    }
    if node.price.None? {
      return Failure(TransactionFailed);
    }
    var gasPrice := node.price.value;
    if !t.sponsored && (gasPrice < 0 || gasPrice > t.maxFeePerGas) {
      return Failure(OverPolicy);
    }
    var gasLimit := GasLimit(node.gas(FUND), Margin(swapping, route, transfers.value));
    var feeToken: Option<Token>, guarded := None, false;
    if !t.sponsored && t.payerFeeToken.Some? {
      feeToken := t.payerFeeToken;
      guarded := swapping && (feeToken.value == t.currency || Spent(f, feeToken.value) > 0);
      if guarded {
        var plan := PayFromGiven(node, t, feeToken.value, f, gasLimit, gasPrice);
        if plan.Failure? {
          return Failure(plan.error);
        }
        f, gasLimit := plan.value.funding, plan.value.gasLimit;
      }
    } else if !t.sponsored {
      feeToken := Some(t.currency);
      guarded := swapping;
      if swapping {
        var plan := PayFromSupported(node, t, f, gasLimit, gasPrice);
        if plan.Failure? {
          return Failure(plan.error);
        }
        f, gasLimit, feeToken := plan.value.funding, plan.value.gasLimit, Some(plan.value.feeToken);
      } else if route || t.feeless {
        feeToken := ResolveFeeToken(node, FEE, t.feeTokens, FeeRequirement(gasLimit, gasPrice), f);
        if feeToken.None? {
          return Failure(TransactionFailed);
        }
      }
    }
    if BuysTooMuch(f, t.amount) {
      return Failure(TransactionFailed);
    }
    if !t.sponsored && gasLimit * gasPrice > t.maxTotalFee {
      return Failure(OverPolicy);
    }
    result := Success(Signed(f, transfers.value, route, feeToken, gasLimit, gasPrice, swapping, guarded));
  }

  // ---------- What a signed batch can do ----------

  /** The batch can be charged its fee and then run. */
  ghost predicate CanPay(b: Balances, t: Terms, s: Signed)
    requires s.feeToken.Some? && s.gasPrice >= 0
  {
    Solvent(b, s.feeToken.value, FeeRequirement(s.gasLimit, s.gasPrice), Batch(t, s))
  }

  /** Without a swap the batch is paid for exactly when the balances cover amount and fee. */
  lemma PlainBatch(b: Balances, currency: Token, amount: nat, transfers: seq<nat>, feeToken: Token, fee: nat)
    requires Sum(transfers) == amount
    ensures Solvent(b, feeToken, fee, TransferCalls(currency, transfers))
            <==> fee <= Held(b, feeToken) && amount + (if feeToken == currency then fee else 0) <= Held(b, currency)
  {
    if fee <= Held(b, feeToken) {
      TransfersRun(b[feeToken := Held(b, feeToken) - fee], map[], currency, transfers);
    }
  }

  lemma RouteRuns(b: Balances, token: Token, amount: nat)
    ensures CanRun(b, map[], RouteCalls(token, amount)) <==> amount <= Held(b, token)
  {
    var calls := RouteCalls(token, amount);
    var none: Balances := map[];
    assert calls[1..] == [SwapTo(token, amount)] && calls[1..][1..] == [];
    assert CanRun(b, none, calls) <==> CanRun(b, none[token := amount], calls[1..]);
    assert CanRun(b, none[token := amount], calls[1..]) <==> amount <= Held(b, token);
  }

  /** What holds of a signed batch, whatever the node answered. */
  ghost predicate Sound(b: Balances, t: Terms, s: Signed) {
    && Sum(s.transfers) == t.amount
    && (forall c :: c in Batch(t, s) && c.Swap? ==> c.tokenOut == t.currency && c.amountOut <= t.amount)
    && (t.sponsored ==> s.feeToken.None? && (s.swapping || s.route ==> CanRun(b, map[], Batch(t, s))))
    && (!t.sponsored ==>
          && s.feeToken.Some? && 0 <= s.gasPrice <= t.maxFeePerGas && s.gasLimit * s.gasPrice <= t.maxTotalFee
          // Everything is covered, fee included, on the default path or if the batch spends the named token.
          && (s.guarded ==> CanPay(b, t, s))
          && (s.swapping && !s.guarded ==>
                && s.feeToken == t.payerFeeToken != Some(t.currency) && Spent(s.funding, s.feeToken.value) == 0
                // A named token the batch does not spend is never looked at.
                && (CanPay(b, t, s) <==> FeeRequirement(s.gasLimit, s.gasPrice) <= Held(b, s.feeToken.value)))
          && (!s.swapping ==>
                var fee, token := FeeRequirement(s.gasLimit, s.gasPrice), s.feeToken.value;
                CanPay(b, t, s)
                <==> && fee <= Held(b, token)
                     && t.amount + (if token == PaidIn(t, s) then fee else 0) <= Held(b, PaidIn(t, s))))
    && (!s.swapping && (s.route || t.policy.Some?) ==> t.amount <= Held(b, PaidIn(t, s)))
  }

  /** A swapping batch whose funding is covered, with its fee kept or its fee token untouched. */
  lemma SwappingIsSound(b: Balances, t: Terms, s: Signed)
    requires Sum(s.transfers) == t.amount && Covers(b, t.currency, t.amount, s.funding) && s.swapping && !s.route
    requires !BuysTooMuch(s.funding, t.amount) && (t.sponsored ==> s.feeToken.None?)
    requires !t.sponsored ==>
               && s.feeToken.Some? && 0 <= s.gasPrice <= t.maxFeePerGas && s.gasLimit * s.gasPrice <= t.maxTotalFee
               && (s.guarded ==> FeeRequirement(s.gasLimit, s.gasPrice) + Spent(s.funding, s.feeToken.value)
                                 <= Held(b, s.feeToken.value))
               && (!s.guarded ==> s.feeToken == t.payerFeeToken != Some(t.currency)
                                  && Spent(s.funding, s.feeToken.value) == 0)
    ensures Sound(b, t, s)
  {
    hide CanRun, Sum, FeeRequirement;
    if t.sponsored {
      if s.funding.calls == [] {
        assert Batch(t, s) == TransferCalls(t.currency, s.transfers);
        TransfersRun(b, map[], t.currency, s.transfers);
      } else {
        SwapThenTransfers(b, s.funding, t.currency, t.amount, s.transfers);
      }
    } else {
      var fee, token := FeeRequirement(s.gasLimit, s.gasPrice), s.feeToken.value;
      if fee + Spent(s.funding, token) <= Held(b, token) {
        KeptFeeIsSolvent(b, s.funding, t.currency, t.amount, s.transfers, token, fee);
      }
    }
  }

  /** A batch without a swap, on the route or not. */
  lemma PlainIsSound(b: Balances, t: Terms, s: Signed)
    requires Sum(s.transfers) == t.amount && !s.swapping && !s.guarded && s.funding.calls == []
    requires s.route ==> t.machineToken.Some?
    requires s.route || t.policy.Some? ==> t.amount <= Held(b, PaidIn(t, s))
    requires t.sponsored ==> s.feeToken.None?
    requires !t.sponsored ==>
               s.feeToken.Some? && 0 <= s.gasPrice <= t.maxFeePerGas && s.gasLimit * s.gasPrice <= t.maxTotalFee
    ensures Sound(b, t, s)
  {
    hide CanRun, Sum, FeeRequirement;
    if s.route {
      RouteRuns(b, t.machineToken.value, t.amount);
      if !t.sponsored && FeeRequirement(s.gasLimit, s.gasPrice) <= Held(b, s.feeToken.value) {
        var token := s.feeToken.value;
        RouteRuns(b[token := Held(b, token) - FeeRequirement(s.gasLimit, s.gasPrice)], t.machineToken.value, t.amount);
      }
    } else {
      assert Batch(t, s) == TransferCalls(t.currency, s.transfers);
      if !t.sponsored {
        PlainBatch(b, t.currency, t.amount, s.transfers, s.feeToken.value, FeeRequirement(s.gasLimit, s.gasPrice));
      }
    }
  }

  lemma FundedCovers(node: Node, b: Balances, t: Terms, splits: seq<int>)
    requires ValidTerms(t) && Tells(node, b)
    ensures var f := Funded(node, t, splits);
            f.Success? ==>
              && (f.value.calls != [] ==> t.policy.Some? && !Routed(node, t, splits) && Covers(b, t.currency, t.amount, f.value))
              && (f.value.calls == [] ==> f.value == NO_CALLS)
              && (f.value.calls == [] && t.policy.Some? && !Routed(node, t, splits) ==> t.amount <= Held(b, t.currency))
    ensures Reliable(node) && !Routed(node, t, splits) && (t.policy.None? || t.amount <= Held(b, t.currency)) ==>
              Funded(node, t, splits) == Success(NO_CALLS)
  {
    hide Found, Routed, Currencies, Candidates, SlippageBps;
    if t.policy.Some? {
      FoundTopsUp(node, b, FUND, t, 0, None);
      assert Reliable(node) ==> node.balance(FUND, 0, t.currency).Some?;
    }
  }

  /** A draft that swaps keeps its fee, or leaves the fee token the client named alone. */
  lemma DraftedKeepsFee(node: Node, b: Balances, t: Terms, f: Funding, gasLimit: nat, gasPrice: int)
    requires ValidTerms(t) && t.policy.Some? && Tells(node, b) && Covers(b, t.currency, t.amount, f)
    requires !t.sponsored ==> gasPrice >= 0
    ensures var draft := Drafted(node, t, f, true, false, gasLimit, gasPrice);
            draft.Success? ==>
              var d := draft.value;
              && Covers(b, t.currency, t.amount, d.funding) && (t.sponsored <==> d.feeToken.None?)
              && (d.guarded ==> d.feeToken.Some? && gasPrice >= 0
                                && FeeRequirement(d.gasLimit, gasPrice) + Spent(d.funding, d.feeToken.value)
                                   <= Held(b, d.feeToken.value))
              && (!d.guarded && !t.sponsored ==>
                    d.feeToken == t.payerFeeToken != Some(t.currency) && Spent(d.funding, d.feeToken.value) == 0)
  {
    if !t.sponsored {
      if t.payerFeeToken.Some? {
        GivenKeepsFee(node, b, t, t.payerFeeToken.value, f, gasLimit, gasPrice);
      } else {
        SupportedKeepsFee(node, b, t, f, gasLimit, gasPrice);
      }
    }
    hide Resolved, PaidFromGiven, PaidFromSupported, FeeRequirement, Covers;
  }

  /**
   Every batch that is signed is sound: from any answers that give true balances, it buys at most
   the charge, stays within the fee budget, and can pay its fee and run, always if it was guarded
   and otherwise under the exact condition that Sound gives.
   */
  lemma BuildIsSound(node: Node, b: Balances, t: Terms, splits: seq<int>)
    requires ValidTerms(t) && Tells(node, b)
    requires Build(node, t, splits).Success?
    ensures var s := Build(node, t, splits).value;
            && Sound(b, t, s) && GetTransfers(t.amount, splits) == Success(s.transfers)
            && (s.swapping ==> t.policy.Some?) && (s.route <==> Routed(node, t, splits))
            && (!t.sponsored && t.payerFeeToken.None? && !s.swapping && (s.route || t.feeless) ==>
                  s.feeToken.value in t.feeTokens
                  && FeeRequirement(s.gasLimit, s.gasPrice) <= Held(b, s.feeToken.value))
            && (!t.sponsored && t.payerFeeToken.None? ==>
                  && (s.swapping ==> s.guarded && s.feeToken.value in t.feeTokens)
                  && (!s.swapping && !s.route && !t.feeless ==> s.feeToken == Some(t.currency)))
            && (!t.sponsored && t.payerFeeToken.Some? ==> s.feeToken == t.payerFeeToken)
  {
    hide Sound, CanRun, FeeRequirement, Sum, Found, GetTransfers, PaidFromGiven, PaidFromSupported, GasLimit;
    var s := Build(node, t, splits).value;
    TransfersPayTheCharge(t.amount, splits, s.transfers);
    FundedCovers(node, b, t, splits);
    var f := Funded(node, t, splits).value;
    if s.swapping {
      var gas := GasLimit(node.gas(FUND), Margin(true, false, s.transfers));
      DraftedKeepsFee(node, b, t, f, gas, node.price.value);
      SupportedToken(node, b, t, f, gas, node.price.value);
      hide Drafted, Funded, Routed;
      SwappingIsSound(b, t, s);
    } else {
      assert s.route ==> t.amount <= Held(b, t.machineToken.value);
      hide Funded;
      PlainIsSound(b, t, s);
    }
  }

  lemma SupportedToken(node: Node, b: Balances, t: Terms, f: Funding, gasLimit: nat, gasPrice: int)
    requires ValidTerms(t) && t.policy.Some? && Tells(node, b) && Covers(b, t.currency, t.amount, f)
    requires !t.sponsored ==> gasPrice >= 0
    ensures var draft := Drafted(node, t, f, true, false, gasLimit, gasPrice);
            draft.Success? && !t.sponsored ==>
              && (t.payerFeeToken.None? ==> draft.value.guarded && draft.value.feeToken.Some?
                                            && draft.value.feeToken.value in t.feeTokens)
              && (t.payerFeeToken.Some? ==> draft.value.feeToken == t.payerFeeToken)
  {
    if !t.sponsored && t.payerFeeToken.None? {
      SupportedKeepsFee(node, b, t, f, gasLimit, gasPrice);
    }
    hide Resolved, PaidFromGiven, PaidFromSupported, FeeRequirement, Covers;
  }

  /** A route is taken exactly for one positive transfer, covered by a known balance, that simulates. */
  lemma RoutedExactly(node: Node, t: Terms, splits: seq<int>)
    ensures Routed(node, t, splits) <==>
              && |splits| == 0 && t.amount >= 1 && node.simulates == true
              && exists token, known: nat :: && t.machineToken == Some(token) && node.balance(ROUTE, 0, token) == Some(known)
                                             && t.amount <= known
  {
    if Routed(node, t, splits) {
      var token := t.machineToken.value;
      assert node.balance(ROUTE, 0, token) == Some(node.balance(ROUTE, 0, token).value);
    }
  }

  /** The gas signed for is that of the batch signed: a funding that was changed is estimated again. */
  lemma GasIsForTheBatch(node: Node, t: Terms, splits: seq<int>)
    requires ValidTerms(t) && Build(node, t, splits).Success?
    ensures var s := Build(node, t, splits).value;
            var first := IsLimit(s.gasLimit, node.gas(FUND),
                                 if s.swapping || s.route then 5_000 else 5_000 * |s.transfers|);
            var again := IsLimit(s.gasLimit, node.gas(REBUILD), 5_000);
            && (first || (s.swapping && again))
            && (Success(s.funding) != Funded(node, t, splits) ==> s.swapping && again)
  {
    hide Funded, Routed, Refund, Resolved, FundedByOther, FeeRequirement, GasLimit, IsLimit, GetTransfers;
  }

  /**
   With a reliable node, a charge the payer holds and that needs no other token for its fee is
   signed without a swap exactly if gas price and total fee are within the client's limits.
   */
  lemma HeldChargeIsSigned(node: Node, b: Balances, t: Terms, splits: seq<int>) returns (gas: nat)
    requires ValidTerms(t) && Tells(node, b) && Reliable(node) && !Routed(node, t, splits)
    requires GetTransfers(t.amount, splits).Success? && (t.policy.None? || t.amount <= Held(b, t.currency))
    requires t.sponsored || t.payerFeeToken.Some? || !t.feeless
    ensures IsLimit(gas, node.gas(FUND), 5_000 * |GetTransfers(t.amount, splits).value|)
    ensures var price := node.price.value;
            var token := if t.sponsored then None else if t.payerFeeToken.Some? then t.payerFeeToken else Some(t.currency);
            Build(node, t, splits)
            == if t.sponsored || (0 <= price <= t.maxFeePerGas && gas * price <= t.maxTotalFee)
               then Success(Signed(NO_CALLS, GetTransfers(t.amount, splits).value, false, token, gas, price, false, false))
               else Failure(OverPolicy)
  {
    FundedCovers(node, b, t, splits);
    gas := GasLimit(node.gas(FUND), 5_000 * |GetTransfers(t.amount, splits).value|);
    hide Funded, GetTransfers, Routed, GasLimit, IsLimit, Resolved, PaidFromGiven, PaidFromSupported;
  }

  // ---------- A fee token that is not looked at ----------

  /** A payer with plenty of one currency, who names a fee token it does not hold. */
  const ONE_CURRENCY: Balances := map[1 := 100]
  const NAMED_FEE_TOKEN :=
    Terms(0, 50, Some(Policy(Some([1]), false, 1.0, None)), [], [3], false, None, Some(2), false, 10, 20_000_000)
  const TRUTHFUL_NODE :=
    Node((x: nat, k: nat, t: Token) => Some(Held(ONE_CURRENCY, t)), (x: nat, t: Token, d: nat) => Some(60),
         (x: nat) => None, Some(10), false)

  /** With true answers throughout, the builder signs a swapping batch that cannot pay its fee. */
  lemma UnspentFeeTokenIsUnchecked()
    ensures ValidTerms(NAMED_FEE_TOKEN) && Tells(TRUTHFUL_NODE, ONE_CURRENCY) && Reliable(TRUTHFUL_NODE)
    ensures var result := Build(TRUTHFUL_NODE, NAMED_FEE_TOKEN, []);
            && result.Success? && result.value.swapping && !NAMED_FEE_TOKEN.sponsored
            && result.value.feeToken == Some(2) && result.value.gasPrice >= 0
            && !CanPay(ONE_CURRENCY, NAMED_FEE_TOKEN, result.value)
  {
    var t := NAMED_FEE_TOKEN;
    assert Currencies(t.policy.value, t.defaults) == [1];
    assert Sources(t, None) == [1] by {
      assert [1][1..] == [];
    }
    assert SlippageBps(t.policy.value) == 100;
    assert CanFund(TRUTHFUL_NODE, FUND, 0, 1, 50, 100);
    assert Found(TRUTHFUL_NODE, FUND, t, 0, None) == Success(SwapFrom(1, 0, 50, 50, 60));
  }
}
