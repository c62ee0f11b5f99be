/** What the wrapped ports reserve and report: token counts and their price in micro-USD. */
module ReleasePricing {
  import opened Common
  import opened ReleaseBudget

  /** Price of the tokens at `rate` units per thousand, rounded up. */
  function Money(tokens: nat, rate: nat): nat {
    (tokens * rate + 999) / 1000
  }

  function EmbeddingUsage(tokens: nat, rate: nat): Usage {
    ZERO.(embeddingCalls := 1, embeddingInputTokens := tokens, microUsd := Money(tokens, rate))
  }

  function ChatUsage(input: nat, output: nat, rate: nat): Usage {
    ZERO.(chatCalls := 1, chatInputTokens := input, chatOutputTokens := output, microUsd := Money(input + output, rate))
  }

  /** Rounding up is the least price that covers the tokens. */
  lemma MoneyIsLeastCover(tokens: nat, rate: nat, m: nat)
    ensures Money(tokens, rate) <= m <==> tokens * rate <= 1000 * m
  {}

  lemma MoneyMonotone(a: nat, b: nat, rate: nat)
    requires a <= b
    ensures Money(a, rate) <= Money(b, rate)
  {
    TimesMonotone(a, b, rate);
    MoneyIsLeastCover(b, rate, Money(b, rate));
    MoneyIsLeastCover(a, rate, Money(b, rate));
  }

  /** An embedding answer settles its reservation exactly when its tokens are within: the price follows. */
  lemma EmbeddingSettlesByTokens(id: nat, hash: string, reserved: nat, reported: nat, rate: nat)
    requires ValidUsage(EmbeddingUsage(reserved, rate))
    ensures Settles(Reservation(id, EmbeddingCall, hash, EmbeddingUsage(reserved, rate)),
                    EmbeddingUsage(reported, rate))
            <==> reported <= reserved
  {
    if reported <= reserved {
      MoneyMonotone(reported, reserved, rate);
    }
  }

  /** A chat answer settles its reservation exactly when both its token counts are within. */
  lemma ChatSettlesByTokens(
      id: nat, hash: string, input: nat, output: nat, reportedIn: nat, reportedOut: nat, rate: nat)
    requires ValidUsage(ChatUsage(input, output, rate))
    ensures Settles(Reservation(id, ChatCall, hash, ChatUsage(input, output, rate)),
                    ChatUsage(reportedIn, reportedOut, rate))
            <==> reportedIn <= input && reportedOut <= output
  {
    if reportedIn <= input && reportedOut <= output {
      MoneyMonotone(reportedIn + reportedOut, input + output, rate);
    }
  }

  function TotalTokens(calls: seq<nat>): nat {
    if calls == [] then 0 else calls[0] + TotalTokens(calls[1..])
  }

  function TotalMoney(calls: seq<nat>, rate: nat): nat {
    if calls == [] then 0 else Money(calls[0], rate) + TotalMoney(calls[1..], rate)
  }

  /** A lane's ledger never falls below the price of all its tokens, and exceeds it by less than one unit a call. */
  lemma {:induction false} LedgerNeverUndercounts(calls: seq<nat>, rate: nat)
    ensures Money(TotalTokens(calls), rate) <= TotalMoney(calls, rate)
    ensures calls != [] ==> TotalMoney(calls, rate) < Money(TotalTokens(calls), rate) + |calls|
  {
    if calls != [] {
      var rest := calls[1..];
      LedgerNeverUndercounts(rest, rate);
      assert (calls[0] + TotalTokens(rest)) * rate == calls[0] * rate + TotalTokens(rest) * rate;
    }
  }
}
