/** Quoting a bonus spend for a receipt, and the check made when the receipt is
    closed. Points are whole; the net amount is any number. */
module SpendQuote {
  import opened Prelude

  datatype Quote = Quote(maximumSpend: int, spent: int, payable: real)

  /** Conversion of a number to an integer, truncating towards zero. */
  function Truncate(x: real): int { if x >= 0.0 then x.Floor else -((-x).Floor) }

  function MaxReal(a: real, b: real): real { if a >= b then a else b }

  method CanonicalTransactionQuote(balance: int, net: real, requested: int) returns (quote: Quote)
    ensures quote == QuoteOf(balance, net, requested)
  {
    var maximumSpend := balance;
    if maximumSpend as real > net { maximumSpend := Truncate(net); }
    var spent := requested;
    if spent > maximumSpend { spent := maximumSpend; }
    if spent < 0 { spent := 0; }
    quote := Quote(maximumSpend, spent, MaxReal(0.0, net - spent as real));
  }

  function QuoteOf(balance: int, net: real, requested: int): Quote {
    var maximumSpend := if balance as real > net then Truncate(net) else balance;
    var spent := Max(0, Min(requested, maximumSpend));
    Quote(maximumSpend, spent, MaxReal(0.0, net - spent as real))
  }

  /** What closing a receipt accepts; a spend that is not positive, or one without a
      customer, is not looked at. */
  predicate CreateAccepts(customer: bool, balance: int, net: real, spend: int) {
    customer && spend > 0 ==> spend <= balance && spend as real <= net
  }

  predicate Affordable(balance: int, net: real, spend: int) { spend <= balance && spend as real <= net }

  lemma TruncateIs(x: real, n: int)
    requires n >= 0
    ensures x >= 0.0 ==> (n <= Truncate(x) <==> n as real <= x)
    ensures x < 0.0 ==> Truncate(x) <= 0 && (Truncate(x) < 0 <==> x <= -1.0)
  {
    if x >= 0.0 && n as real <= x { assert (n as real).Floor <= x.Floor; }
  }

  /** The quoted spend is the largest amount, not above a request of zero or more,
      that is zero or within both the balance and the net amount. */
  lemma QuoteIsBest(balance: int, net: real, requested: int)
    requires requested >= 0
    ensures var spent := QuoteOf(balance, net, requested).spent;
      && 0 <= spent <= requested && (spent == 0 || Affordable(balance, net, spent))
      && forall other: int :: 0 < other <= requested && Affordable(balance, net, other) ==> other <= spent
  {
    var spent := QuoteOf(balance, net, requested).spent;
    TruncateIs(net, spent);
    forall other: int | 0 < other <= requested && Affordable(balance, net, other) ensures other <= spent {
      TruncateIs(net, other);
    }
  }

  /** The quote never exceeds the request exactly when the request is not negative. */
  lemma QuoteWithinRequestIff(balance: int, net: real, requested: int)
    ensures QuoteOf(balance, net, requested).spent <= requested <==> requested >= 0
  {}

  /** Closing the receipt at the same balance accepts what was quoted, whatever was
      requested, and accepts a positive spend exactly when quoting it returns it. */
  lemma CreateAcceptsTheQuote(customer: bool, balance: int, net: real, requested: int)
    ensures CreateAccepts(customer, balance, net, QuoteOf(balance, net, requested).spent)
    ensures customer && requested > 0 ==>
      (CreateAccepts(customer, balance, net, requested) <==> QuoteOf(balance, net, requested).spent == requested)
  {
    var spent := QuoteOf(balance, net, requested).spent;
    TruncateIs(net, spent);
    if requested > 0 { TruncateIs(net, requested); }
  }

  /** What is paid and what is spent make up the net amount exactly when it is not negative. */
  lemma PayableAndSpentIff(balance: int, net: real, requested: int)
    ensures var quote := QuoteOf(balance, net, requested); quote.payable + quote.spent as real == net <==> net >= 0.0
  {
    TruncateIs(net, QuoteOf(balance, net, requested).spent);
  }

  /** The advertised maximum of a net amount that is not negative is the largest whole
      amount within the balance and the net amount. */
  lemma MaximumIs(balance: int, net: real, requested: int, n: nat)
    requires net >= 0.0
    ensures n <= QuoteOf(balance, net, requested).maximumSpend <==> n <= balance && n as real <= net
  {
    TruncateIs(net, n);
  }

  /** A request of nothing or less spends nothing, and a negative net amount neither
      spends nor charges anything. */
  lemma NothingToSpend(balance: int, net: real, requested: int)
    ensures requested <= 0 ==> QuoteOf(balance, net, requested).spent == 0
    ensures net < 0.0 ==> QuoteOf(balance, net, requested).spent == 0 && QuoteOf(balance, net, requested).payable == 0.0
  {
    TruncateIs(net, 0);
  }

  /** For a balance that is not negative, the advertised maximum is negative exactly
      when the net amount is minus one or less. */
  lemma MaximumNegativeIff(balance: int, net: real)
    requires balance >= 0
    ensures QuoteOf(balance, net, 0).maximumSpend < 0 <==> net <= -1.0
  {
    TruncateIs(net, 0);
  }
}
