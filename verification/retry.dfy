/** The bounded exponential-backoff loop both generators wrap around one
    model call (`get_words_for_alphabet_with_retry`,
    `get_detailed_word_info`), with the remote call replaced by a sequence of
    per-attempt answers. What a reply is turned into (cleaning, `json.loads`,
    validation) is the caller's `decode` function. Sleeps are recorded as
    delays rather than performed. */
module Retry {
  import opened Assoc

  /** One attempt's answer: the concatenated streamed text, or an API error. */
  datatype Reply = Reply(text: string) | CallFailed

  /** The answer to attempt `a`; attempts past the end of the oracle fail. */
  function ReplyAt(replies: seq<Reply>, a: nat): Reply {
    if a < |replies| then replies[a] else CallFailed
  }

  /** The replies left for later calls once `n` attempts have been made. */
  function Consume(replies: seq<Reply>, n: nat): (rest: seq<Reply>)
    ensures |rest| <= |replies|
  {
    if n < |replies| then replies[n..] else []
  }

  /** Attempt `a` after consuming `n` replies sees the reply attempt `n + a` would have. */
  lemma ConsumeShifts(replies: seq<Reply>, n: nat, a: nat)
    ensures ReplyAt(Consume(replies, n), a) == ReplyAt(replies, n + a)
  {
  }

  /** What one attempt yields. An API error, and any reply the caller's
      `decode` rejects (a parse error or a malformed structure), give `None`;
      all of them take the same retry path. */
  function Decode<T>(reply: Reply, decode: string -> Option<T>): Option<T> {
    match reply
    case CallFailed => None
    case Reply(text) => decode(text)
  }

  function Pow2(n: nat): (r: nat)
    ensures r >= 1
  {
    if n == 0 then 1 else 2 * Pow2(n - 1)
  }

  /** `base_delay * (2 ** attempt)`, the wait after failed attempt `attempt`. */
  function BackoffDelay(baseDelay: nat, attempt: nat): nat {
    baseDelay * Pow2(attempt)
  }

  /** The result of the loop: the value returned (`None` for the script's
      `return None`), how many attempts were made, and the waits between them. */
  datatype Outcome<T> = Outcome(value: Option<T>, attempts: nat, delays: seq<nat>)

  /** `for attempt in range(max_retries + 1)`, entered at attempt `a`. */
  function RetryFrom<T>(replies: seq<Reply>, a: nat, maxRetries: nat, baseDelay: nat,
                        decode: string -> Option<T>): (r: Outcome<T>)
    requires a <= maxRetries
    ensures a < r.attempts <= maxRetries + 1
    ensures |r.delays| == r.attempts - 1 - a
    ensures forall i :: 0 <= i < |r.delays| ==> r.delays[i] == BackoffDelay(baseDelay, a + i)
    ensures forall j :: a <= j < r.attempts - 1 ==> Decode(ReplyAt(replies, j), decode).None?
    ensures r.value == Decode(ReplyAt(replies, r.attempts - 1), decode)
    ensures r.value.None? ==> r.attempts == maxRetries + 1
    decreases maxRetries - a
  {
    var here := Decode(ReplyAt(replies, a), decode);
    if here.Some? then Outcome(here, a + 1, [])
    else if a == maxRetries then Outcome(None, a + 1, [])
    else
      var rest := RetryFrom(replies, a + 1, maxRetries, baseDelay, decode);
      var delays := [BackoffDelay(baseDelay, a)] + rest.delays;
      assert forall i :: 1 <= i < |delays| ==> delays[i] == rest.delays[i - 1];
      Outcome(rest.value, rest.attempts, delays)
  }

  /** The whole loop, from attempt 0. */
  function Run<T>(replies: seq<Reply>, maxRetries: nat, baseDelay: nat,
                  decode: string -> Option<T>): (r: Outcome<T>)
    ensures 1 <= r.attempts <= maxRetries + 1
    ensures |r.delays| == r.attempts - 1
    ensures forall i :: 0 <= i < |r.delays| ==> r.delays[i] == BackoffDelay(baseDelay, i)
    ensures forall j :: 0 <= j < r.attempts - 1 ==> Decode(ReplyAt(replies, j), decode).None?
    ensures r.value == Decode(ReplyAt(replies, r.attempts - 1), decode)
    ensures r.value.None? ==> r.attempts == maxRetries + 1
  {
    RetryFrom(replies, 0, maxRetries, baseDelay, decode)
  }

  /** Events a driver's trace records. */
  datatype Event =
    | Call(key: string)       // one attempt at the model for `key`
    | Backoff(seconds: nat)   // a retry wait
    | Pause(seconds: nat)     // the fixed wait between items
    | Save(ok: bool)          // a write of the checkpoint file and whether it succeeded
    | Raise                   // an exception no handler catches, which ends the run

  /** The attempts and waits of one retry loop: a call, then a wait and a
      call for each retry. */
  function AttemptEvents(key: string, delays: seq<nat>): (r: seq<Event>)
    ensures |r| == 2 * |delays| + 1
    ensures r[0] == Call(key)
    ensures forall i :: 0 <= i < |r| ==> r[i] == Call(key) || r[i].Backoff?
    ensures CallCount(r, key) == |delays| + 1
  {
    if |delays| == 0 then [Call(key)]
    else
      var rest := AttemptEvents(key, delays[1..]);
      CallCountAppend([Call(key), Backoff(delays[0])], rest, key);
      [Call(key), Backoff(delays[0])] + rest
  }

  /** How many calls a trace makes for `key`. */
  function CallCount(t: seq<Event>, key: string): nat {
    if |t| == 0 then 0
    else (if t[0] == Call(key) then 1 else 0) + CallCount(t[1..], key)
  }

  lemma {:induction false} CallCountAppend(a: seq<Event>, b: seq<Event>, key: string)
    ensures CallCount(a + b, key) == CallCount(a, key) + CallCount(b, key)
  {
    if |a| == 0 {
      assert a + b == b;
    } else {
      assert (a + b)[1..] == a[1..] + b;
      CallCountAppend(a[1..], b, key);
    }
  }

  /** A trace without a call for `key` counts none. */
  lemma {:induction false} CallCountNone(t: seq<Event>, key: string)
    requires forall i :: 0 <= i < |t| ==> t[i] != Call(key)
    ensures CallCount(t, key) == 0
  {
    if |t| > 0 {
      CallCountNone(t[1..], key);
    }
  }
}
