/**
 * The retry loop of `setupLocalNetwork`, which starts the mDNS responder under the
 * name `SSID()`. `begin(k)` is the outcome of the k-th call of `MDNS.begin`,
 * counting from 0. The loop guard evaluates `!MDNS.begin(hostname)` before
 * `retryAttempt <= MAX_MDNS_RETRIES`, so a call is made on every pass, including the
 * one that ends the loop. `maxRetries` stands for MAX_MDNS_RETRIES; it is below 255 so
 * that the 8-bit counter, which reaches `maxRetries + 1`, never wraps.
 */
module Mdns {

  /** The value of the counter when the loop ends, if it is `k` at the start of a pass. */
  function CounterAfter(begin: nat -> bool, maxRetries: nat, k: nat): nat
    requires k <= maxRetries + 1
    decreases maxRetries + 1 - k
  {
    if begin(k) || k > maxRetries then k else CounterAfter(begin, maxRetries, k + 1)
  }

  /** The responder is running after the loop: the last call made succeeded. */
  predicate Started(begin: nat -> bool, maxRetries: nat) {
    begin(CounterAfter(begin, maxRetries, 0))
  }

  /** The restart test as written: the counter reached MAX_MDNS_RETRIES. */
  predicate RestartsAsWritten(begin: nat -> bool, maxRetries: nat) {
    CounterAfter(begin, maxRetries, 0) >= maxRetries
  }

  /** The loop stops at the first success, or after the call made with the counter at `maxRetries + 1`. */
  lemma {:induction false} CounterAfterIsFirstSuccess(begin: nat -> bool, maxRetries: nat, k: nat)
    requires k <= maxRetries + 1
    ensures k <= CounterAfter(begin, maxRetries, k) <= maxRetries + 1
    ensures forall j: nat :: k <= j < CounterAfter(begin, maxRetries, k) ==> !begin(j)
    ensures CounterAfter(begin, maxRetries, k) <= maxRetries ==> begin(CounterAfter(begin, maxRetries, k))
    decreases maxRetries + 1 - k
  {
    if !begin(k) && k <= maxRetries {
      CounterAfterIsFirstSuccess(begin, maxRetries, k + 1);
    }
  }

  /** As written, the device restarts exactly when the first `maxRetries` calls all failed. */
  lemma RestartsAsWrittenIff(begin: nat -> bool, maxRetries: nat)
    ensures RestartsAsWritten(begin, maxRetries) <==> forall j: nat :: j < maxRetries ==> !begin(j)
  {
    CounterAfterIsFirstSuccess(begin, maxRetries, 0);
  }

  /** A success on the call made with the counter at MAX_MDNS_RETRIES still restarts the device. */
  lemma StartedYetRestarts(begin: nat -> bool, maxRetries: nat)
    requires forall j: nat :: j < maxRetries ==> !begin(j)
    requires begin(maxRetries)
    ensures Started(begin, maxRetries) && RestartsAsWritten(begin, maxRetries)
  {
    CounterAfterIsFirstSuccess(begin, maxRetries, 0);
  }

  /** With three retries allowed, the fourth call succeeds and the device restarts anyway. */
  lemma FourthCallSucceedsYetRestarts()
    ensures var begin := (k: nat) => k == 3;
      Started(begin, 3) && RestartsAsWritten(begin, 3)
  {
    var begin := (k: nat) => k == 3;
    StartedYetRestarts(begin, 3);
  }

  /** `setupLocalNetwork` as written. */
  method SetupLocalNetwork(begin: nat -> bool, maxRetries: nat) returns (retryAttempt: nat, restart: bool)
    requires maxRetries < 255
    ensures retryAttempt == CounterAfter(begin, maxRetries, 0)
    ensures forall j: nat :: j < retryAttempt ==> !begin(j)
    ensures restart == RestartsAsWritten(begin, maxRetries)
    ensures restart <==> forall j: nat :: j < maxRetries ==> !begin(j)
  {
    retryAttempt := 0;
    while !begin(retryAttempt) && retryAttempt <= maxRetries
      invariant retryAttempt <= maxRetries + 1
      invariant CounterAfter(begin, maxRetries, retryAttempt) == CounterAfter(begin, maxRetries, 0)
      invariant forall j: nat :: j < retryAttempt ==> !begin(j)
      decreases maxRetries + 1 - retryAttempt
    {
      retryAttempt := retryAttempt + 1;
    }
    restart := retryAttempt >= maxRetries;
    RestartsAsWrittenIff(begin, maxRetries);
  }

  /**
   * The loop with the restart decided by whether the responder started: the device
   * restarts exactly when every call made failed.
   */
  method SetupLocalNetworkChecked(begin: nat -> bool, maxRetries: nat) returns (retryAttempt: nat, restart: bool)
    requires maxRetries < 255
    ensures retryAttempt == CounterAfter(begin, maxRetries, 0)
    ensures restart <==> !Started(begin, maxRetries)
    ensures restart <==> forall j: nat :: j <= maxRetries + 1 ==> !begin(j)
  {
    retryAttempt := 0;
    var started := begin(retryAttempt);
    while !started && retryAttempt <= maxRetries
      invariant retryAttempt <= maxRetries + 1
      invariant started == begin(retryAttempt)
      invariant CounterAfter(begin, maxRetries, retryAttempt) == CounterAfter(begin, maxRetries, 0)
      invariant forall j: nat :: j < retryAttempt ==> !begin(j)
      decreases maxRetries + 1 - retryAttempt
    {
      retryAttempt := retryAttempt + 1;
      started := begin(retryAttempt);
    }
    restart := !started;
  }
}
