/** The registration retry loop: outcome classes, capped doubling in 64-bit durations, terminal states. */
module Registrar {
  import opened Decimal

  /** One attempt's answer: the configured id does not parse, the request fails, or a status comes back. */
  datatype Reply = InvalidId | TransportError | Status(code: int)

  datatype Outcome = Success | NonRetryable | Retryable

  function Classify(reply: Reply): Outcome {
    match reply
    case InvalidId => NonRetryable
    case TransportError => Retryable
    case Status(code) =>
      if code == 201 || code == 200 then Success
      else if 400 <= code < 500 then NonRetryable
      else Retryable
  }

  /** Answers that lead to another attempt: no answer, or a status other than 200, 201 and 400 to 499. */
  ghost predicate Retried(reply: Reply) {
    reply == TransportError || (reply.Status? && reply.code != 200 && reply.code != 201 && !(400 <= reply.code <= 499))
  }

  ghost predicate Registered(reply: Reply) {
    reply == Status(200) || reply == Status(201)
  }

  /** An attempt's answer, and whether the wait after it would end by cancellation. */
  datatype Turn = Turn(reply: Reply, cancelled: bool)

  function NextBackoff(backoff: int, maxBackoff: int): int {
    var doubled := Wrap(backoff * 2);
    if doubled > maxBackoff then maxBackoff else doubled
  }

  /** The wait after attempt k. */
  function BackoffAt(k: nat, initial: int, maxBackoff: int): int {
    if k == 0 then initial else NextBackoff(BackoffAt(k - 1, initial, maxBackoff), maxBackoff)
  }

  class Registrar {
    const initialBackoff: int
    const maxBackoff: int
    var succeeded: bool

    constructor (initialBackoff: int, maxBackoff: int)
      ensures this.initialBackoff == initialBackoff && this.maxBackoff == maxBackoff && !succeeded
    {
      this.initialBackoff, this.maxBackoff, succeeded := initialBackoff, maxBackoff, false;
    }

    method Register(reply: Reply) returns (outcome: Outcome)
      modifies this
      ensures outcome == Classify(reply) && succeeded == (old(succeeded) || outcome == Success)
      ensures (outcome == Retryable <==> Retried(reply)) && (outcome == Success <==> Registered(reply))
    {
      match reply {
        case InvalidId => return NonRetryable;
        case TransportError => return Retryable;
        case Status(code) =>
          if code == 201 || code == 200 {
            succeeded := true;
            return Success;
          }
          if code == 409 || code == 400 {
            return NonRetryable;
          }
          if code >= 400 && code < 500 {
            return NonRetryable;
          }
          return Retryable;
      }
    }

    /**
     The loop, as far as the environment's `turns` go: `attempts` of them were used, and `exited` says
     whether the loop has returned or would attempt again.
    */
    method Run(turns: seq<Turn>) returns (attempts: nat, waits: seq<int>, exited: bool)
      requires !succeeded
      modifies this
      ensures attempts <= |turns| && (!exited ==> attempts == |turns|)
      ensures forall i :: 0 <= i < attempts - 1 ==> Retried(turns[i].reply) && !turns[i].cancelled
      ensures exited <==> attempts > 0 && (!Retried(turns[attempts - 1].reply) || turns[attempts - 1].cancelled)
      ensures succeeded <==> attempts > 0 && Registered(turns[attempts - 1].reply)
      ensures |waits| == if attempts > 0 && !Retried(turns[attempts - 1].reply) then attempts - 1 else attempts
      ensures forall k :: 0 <= k < |waits| ==> waits[k] == BackoffAt(k, initialBackoff, maxBackoff)
      ensures |waits| > 0 ==> waits[0] == initialBackoff
    {
      hide Wrap, Classify;
      var backoff := initialBackoff;
      attempts, waits, exited := 0, [], false;
      while attempts < |turns|
        invariant attempts <= |turns| && !exited && !succeeded
        invariant forall i :: 0 <= i < attempts ==> Retried(turns[i].reply) && !turns[i].cancelled
        invariant |waits| == attempts && backoff == BackoffAt(attempts, initialBackoff, maxBackoff)
        invariant forall k :: 0 <= k < |waits| ==> waits[k] == BackoffAt(k, initialBackoff, maxBackoff)
      {
        var turn := turns[attempts];
        attempts := attempts + 1;
        var outcome := Register(turn.reply);
        if outcome == Success || outcome == NonRetryable {
          return attempts, waits, true;
        }
        waits := waits + [backoff];
        if turn.cancelled {
          return attempts, waits, true;
        }
        backoff := Wrap(backoff * 2);
        if backoff > maxBackoff {
          backoff := maxBackoff;
        }
      }
    }
  }

  // ---------- The closed form ----------

  function Pow2(k: nat): nat {
    if k == 0 then 1 else 2 * Pow2(k - 1)
  }

  function Min(a: int, b: int): int {
    if a < b then a else b
  }

  const HALF := 0x4000_0000_0000_0000 // 2^62

  /** Every wait but the first is the doubled initial wait, capped. */
  ghost predicate ClosedForm(initial: int, maxBackoff: int) {
    forall k: nat :: k >= 1 ==> BackoffAt(k, initial, maxBackoff) == Min(initial * Pow2(k), maxBackoff)
  }

  /** No wait the loop comes to is so long that doubling it overflows. */
  predicate NeverWraps(initial: int, maxBackoff: int) {
    initial < HALF && 0 <= maxBackoff < HALF
  }

  /** A cap so negative that its own double wraps around to above it: every wait but the first is the cap. */
  predicate CapWraps(initial: int, maxBackoff: int) {
    maxBackoff < -HALF && Wrap(initial * 2) >= maxBackoff
  }

  /** What `NeverWraps` stands for: the loop never doubles a wait out of range. */
  lemma {:induction false} DoublesInRange(k: nat, initial: int, maxBackoff: int)
    requires 0 < initial && NeverWraps(initial, maxBackoff)
    ensures Int64(BackoffAt(k, initial, maxBackoff) * 2) && BackoffAt(k, initial, maxBackoff) >= 0
  {
    if k > 0 {
      DoublesInRange(k - 1, initial, maxBackoff);
      WrapSays(BackoffAt(k - 1, initial, maxBackoff) * 2);
    }
  }

  lemma {:induction false} ClosedFormAt(k: nat, initial: int, maxBackoff: int)
    requires 0 < initial && Int64(initial) && Int64(maxBackoff) && k >= 1
    requires NeverWraps(initial, maxBackoff) || CapWraps(initial, maxBackoff)
    ensures BackoffAt(k, initial, maxBackoff) == Min(initial * Pow2(k), maxBackoff)
  {
    hide Wrap, Pow2;
    Pow2Grows(initial, k);
    Pow2Grows(initial, k - 1);
    if k > 1 {
      ClosedFormAt(k - 1, initial, maxBackoff);
    }
    var before := BackoffAt(k - 1, initial, maxBackoff);
    assert before == if k > 1 then Min(initial * Pow2(k - 1), maxBackoff) else initial;
    WrapSays(before * 2);
  }

  lemma Pow2Grows(initial: int, k: nat)
    requires 0 < initial
    ensures initial * Pow2(k) >= initial && Pow2(0) == 1
    ensures k >= 1 ==> initial * Pow2(k) == 2 * (initial * Pow2(k - 1))
  {
    if k >= 1 {
      Pow2Grows(initial, k - 1);
    }
  }

  /** The step at which doubling from `initial` first leaves the lower half of the range. */
  lemma {:induction false} FirstLarge(initial: int, k: nat) returns (n: nat)
    requires 0 < initial && initial * Pow2(k) < HALF
    ensures n > k && HALF <= initial * Pow2(n) < 2 * HALF
    decreases HALF - initial * Pow2(k)
  {
    Pow2Grows(initial, k + 1);
    Pow2Grows(initial, k);
    if initial * Pow2(k + 1) >= HALF {
      n := k + 1;
    } else {
      n := FirstLarge(initial, k + 1);
    }
  }

  lemma NotClosed(k: nat, initial: int, maxBackoff: int)
    requires k >= 1 && BackoffAt(k, initial, maxBackoff) != Min(initial * Pow2(k), maxBackoff)
    ensures !ClosedForm(initial, maxBackoff)
  {
  }

  /** A wait in the upper half of the range wraps around to a negative one. */
  lemma DoubledPastRange(n: nat, initial: int, maxBackoff: int)
    requires 0 < initial && HALF <= maxBackoff <= MAX_INT && HALF <= initial * Pow2(n) < 2 * HALF
    requires BackoffAt(n, initial, maxBackoff) == Min(initial * Pow2(n), maxBackoff)
    ensures BackoffAt(n + 1, initial, maxBackoff) < 0 < Min(initial * Pow2(n + 1), maxBackoff)
  {
    hide Wrap, Pow2;
    Pow2Grows(initial, n + 1);
    WrapSays(BackoffAt(n, initial, maxBackoff) * 2);
  }

  lemma LargeCapOverflows(initial: int, maxBackoff: int)
    requires 0 < initial < HALF <= maxBackoff <= MAX_INT
    ensures !ClosedForm(initial, maxBackoff)
  {
    hide BackoffAt, Pow2, ClosedForm;
    Pow2Grows(initial, 0);
    var n := FirstLarge(initial, 0);
    if BackoffAt(n, initial, maxBackoff) == Min(initial * Pow2(n), maxBackoff) {
      DoubledPastRange(n, initial, maxBackoff);
      NotClosed(n + 1, initial, maxBackoff);
    } else {
      NotClosed(n, initial, maxBackoff);
    }
  }

  lemma FirstWaits(initial: int, maxBackoff: int)
    requires 0 < initial
    ensures initial * Pow2(1) == 2 * initial && initial * Pow2(2) == 4 * initial
    ensures BackoffAt(1, initial, maxBackoff) == NextBackoff(initial, maxBackoff)
    ensures BackoffAt(2, initial, maxBackoff) == NextBackoff(NextBackoff(initial, maxBackoff), maxBackoff)
  {
    Pow2Grows(initial, 0);
    Pow2Grows(initial, 1);
    Pow2Grows(initial, 2);
  }

  /** Outside both cases the first or second wait is already off, unless the cap is so large that a later one is. */
  lemma OtherwiseNotClosed(initial: int, maxBackoff: int)
    requires 0 < initial && Int64(initial) && Int64(maxBackoff)
    requires !NeverWraps(initial, maxBackoff) && !CapWraps(initial, maxBackoff)
    ensures !ClosedForm(initial, maxBackoff)
  {
    hide Wrap, Pow2, ClosedForm, BackoffAt;
    WrapSays(initial * 2);
    WrapSays(maxBackoff * 2);
    FirstWaits(initial, maxBackoff);
    if initial < HALF <= maxBackoff {
      LargeCapOverflows(initial, maxBackoff);
    } else if BackoffAt(1, initial, maxBackoff) != Min(2 * initial, maxBackoff) {
      NotClosed(1, initial, maxBackoff);
    } else {
      NotClosed(2, initial, maxBackoff);
    }
  }

  /**
   Retry waits: for a positive initial backoff the closed form min(initial * 2^k, max) holds for every
   k >= 1 exactly when no doubling overflows, or the cap is so negative that its doubling wraps around to
   above it.
  */
  lemma ClosedFormIff(initial: int, maxBackoff: int)
    requires 0 < initial && Int64(initial) && Int64(maxBackoff)
    ensures ClosedForm(initial, maxBackoff) <==> NeverWraps(initial, maxBackoff) || CapWraps(initial, maxBackoff)
  {
    hide Wrap, BackoffAt;
    if NeverWraps(initial, maxBackoff) || CapWraps(initial, maxBackoff) {
      forall k: nat | k >= 1
        ensures BackoffAt(k, initial, maxBackoff) == Min(initial * Pow2(k), maxBackoff)
      {
        ClosedFormAt(k, initial, maxBackoff);
      }
    } else {
      OtherwiseNotClosed(initial, maxBackoff);
    }
  }
}
