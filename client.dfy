/**
 * The resilient model call (`call_api`): the Gemini call is an oracle of the
 * credential, the model name and the prompt; a raised failure and a reply
 * whose text is `Error` are both failed attempts; after a failed attempt with
 * retries left the credential cursor (`error_key`) moves to the next
 * credential, cyclically, and the client is rebound to it. The cursor lives
 * in the client object and is never reset between calls.
 */
module Client {
  import opened Wrappers

  /** What one `generate_content` call gives: a raised exception, or a response text. */
  datatype Reply = Raised | Response(text: string)

  /** The call (credential, model, prompt) to the model service. */
  type Oracle = (string, string, string) -> Reply

  /** The result of `call_api`: the response text, the "failed after N attempts"
      error, or `None` when no attempt was allowed at all. */
  datatype CallResult = Answer(text: string) | Exhausted(attempts: int) | NoAnswer

  /** The sentinel text the model returns for an unrelated input. */
  const ErrorText: string := "Error"

  /** An attempt fails when the call raises or answers the sentinel. */
  predicate Failed(r: Reply) {
    r.Raised? || r.text == ErrorText
  }

  /** The cursor after a rotation: the next credential, the first after the last. */
  function Next(cursor: nat, n: nat): (c: nat)
    requires cursor < n
    ensures c < n
    ensures c == (cursor + 1) % n
  {
    if cursor == n - 1 then ModUnique(n, n, 1, 0); 0
    else ModUnique(cursor + 1, n, 0, cursor + 1); cursor + 1
  }

  /** The result of a call, the cursor it leaves and how many oracle calls it made. */
  datatype Outcome = Outcome(result: CallResult, cursor: nat, calls: nat)

  /** The retry loop from attempt `made` on, with the cursor at `cursor`. */
  function Attempts(keys: seq<string>, cursor: nat, model: string, prompt: string,
                    limit: int, made: nat, oracle: Oracle): Outcome
    requires cursor < |keys|
    requires made < limit
    decreases limit - made
  {
    var reply := oracle(keys[cursor], model, prompt);
    if !Failed(reply) then Outcome(Answer(reply.text), cursor, made + 1)
    else if made + 1 < limit then Attempts(keys, Next(cursor, |keys|), model, prompt, limit, made + 1, oracle)
    else Outcome(Exhausted(limit), cursor, made + 1)
  }

  /** `call_api` on a client whose cursor is `cursor`; the retry bound defaults
      to the number of credentials. */
  function CallSpec(keys: seq<string>, cursor: nat, model: string, prompt: string,
                    maxRetries: Option<int>, oracle: Oracle): Outcome
    requires cursor < |keys|
  {
    var limit := maxRetries.GetOr(|keys|);
    if limit <= 0 then Outcome(NoAnswer, cursor, 0)
    else Attempts(keys, cursor, model, prompt, limit, 0, oracle)
  }

  /** The credential attempt `i` of a call starting at cursor `c0` uses. */
  function KeyAt(keys: seq<string>, c0: nat, i: nat): string
    requires |keys| > 0
  {
    keys[(c0 + i) % |keys|]
  }

  /** The reply attempt `i` of a call starting at cursor `c0` gets. */
  function ReplyAt(keys: seq<string>, c0: nat, i: nat, model: string, prompt: string, oracle: Oracle): Reply
    requires |keys| > 0
  {
    oracle(KeyAt(keys, c0, i), model, prompt)
  }

  lemma MulAtLeast(d: int, n: int)
    requires d >= 1 && n > 0
    ensures d * n >= n
    decreases d
  {
    if d > 1 {
      MulAtLeast(d - 1, n);
      assert d * n == (d - 1) * n + n;
    }
  }

  /** Euclidean remainders are unique. */
  lemma ModUnique(x: int, n: int, q: int, r: int)
    requires n > 0 && 0 <= r < n && x == q * n + r
    ensures x % n == r
  {
    var q', r' := x / n, x % n;
    assert x == q' * n + r';
    assert (q - q') * n == r' - r;
    if q > q' {
      MulAtLeast(q - q', n);
    } else if q < q' {
      assert (q' - q) * n == r - r';
      MulAtLeast(q' - q, n);
    }
  }

  /** One rotation from credential `c0 + i` reaches credential `c0 + i + 1`, cyclically. */
  lemma NextIsStep(c0: nat, i: nat, n: nat)
    requires n > 0
    ensures Next((c0 + i) % n, n) == (c0 + i + 1) % n
  {
    var x := c0 + i;
    var q, r := x / n, x % n;
    if r + 1 < n {
      ModUnique(x + 1, n, q, r + 1);
      ModUnique(r + 1, n, 0, r + 1);
    } else {
      ModUnique(x + 1, n, q + 1, 0);
      ModUnique(r + 1, n, 1, 0);
    }
  }

  /** From attempt `made` on: attempt `i` uses credential `c0 + i` (cyclically);
      the call stops at the first attempt that does not fail, or after the
      attempt numbered `limit - 1`, and the cursor is left on the last credential used. */
  lemma {:induction false} AttemptsClosedForm(keys: seq<string>, c0: nat, model: string, prompt: string,
                                              limit: int, made: nat, oracle: Oracle)
    requires |keys| > 0 && c0 < |keys| && made < limit
    ensures var o := Attempts(keys, (c0 + made) % |keys|, model, prompt, limit, made, oracle);
            && made < o.calls <= limit
            && o.cursor == (c0 + o.calls - 1) % |keys|
            && (forall i :: made <= i < o.calls - 1 ==> Failed(ReplyAt(keys, c0, i, model, prompt, oracle)))
            && (o.result.Answer? ==>
                  !Failed(ReplyAt(keys, c0, o.calls - 1, model, prompt, oracle))
                  && o.result.text == ReplyAt(keys, c0, o.calls - 1, model, prompt, oracle).text)
            && (o.result.Exhausted? ==>
                  o.calls == limit && o.result.attempts == limit
                  && Failed(ReplyAt(keys, c0, limit - 1, model, prompt, oracle)))
            && !o.result.NoAnswer?
    decreases limit - made
  {
    var n := |keys|;
    var reply := oracle(keys[(c0 + made) % n], model, prompt);
    if Failed(reply) && made + 1 < limit {
      NextIsStep(c0, made, n);
      AttemptsClosedForm(keys, c0, model, prompt, limit, made + 1, oracle);
    }
  }

  /** A call makes at most `max_retries` oracle calls, and none when that bound is not positive. */
  lemma CallBound(keys: seq<string>, c0: nat, model: string, prompt: string, maxRetries: Option<int>, oracle: Oracle)
    requires c0 < |keys|
    ensures var o := CallSpec(keys, c0, model, prompt, maxRetries, oracle);
            var limit := maxRetries.GetOr(|keys|);
            && (limit <= 0 ==> o == Outcome(NoAnswer, c0, 0))
            && (limit > 0 ==> 0 < o.calls <= limit)
            && o.cursor < |keys|
  {
    var limit := maxRetries.GetOr(|keys|);
    if limit > 0 {
      ModUnique(c0 + 0, |keys|, 0, c0);
      AttemptsClosedForm(keys, c0, model, prompt, limit, 0, oracle);
    }
  }

  /** When every allowed attempt fails, the call fails with "after N attempts"
      after exactly N oracle calls, and the last failure does not rotate. */
  lemma AllFailExhausts(keys: seq<string>, c0: nat, model: string, prompt: string, maxRetries: Option<int>, oracle: Oracle)
    requires c0 < |keys|
    requires maxRetries.GetOr(|keys|) > 0
    requires forall i :: 0 <= i < maxRetries.GetOr(|keys|) ==> Failed(ReplyAt(keys, c0, i, model, prompt, oracle))
    ensures var limit := maxRetries.GetOr(|keys|);
            CallSpec(keys, c0, model, prompt, maxRetries, oracle)
            == Outcome(Exhausted(limit), (c0 + limit - 1) % |keys|, limit)
  {
    var limit := maxRetries.GetOr(|keys|);
    ModUnique(c0 + 0, |keys|, 0, c0);
    AttemptsClosedForm(keys, c0, model, prompt, limit, 0, oracle);
  }

  /** The first attempt that does not fail ends the call: its text is returned,
      no further oracle call is made, and the cursor stays on its credential. */
  lemma FirstSuccessReturned(keys: seq<string>, c0: nat, model: string, prompt: string, maxRetries: Option<int>,
                             oracle: Oracle, j: nat)
    requires c0 < |keys|
    requires j < maxRetries.GetOr(|keys|)
    requires forall i :: 0 <= i < j ==> Failed(ReplyAt(keys, c0, i, model, prompt, oracle))
    requires !Failed(ReplyAt(keys, c0, j, model, prompt, oracle))
    ensures CallSpec(keys, c0, model, prompt, maxRetries, oracle)
            == Outcome(Answer(ReplyAt(keys, c0, j, model, prompt, oracle).text), (c0 + j) % |keys|, j + 1)
  {
    var limit := maxRetries.GetOr(|keys|);
    ModUnique(c0 + 0, |keys|, 0, c0);
    AttemptsClosedForm(keys, c0, model, prompt, limit, 0, oracle);
  }

  /** The process-wide client state: the credentials, the cursor `error_key`
      and the credential the Gemini client is bound to. */
  class RotatingClient {
    const keys: seq<string>
    var cursor: nat
    var bound: string

    ghost predicate Valid()
      reads this
    {
      |keys| > 0 && cursor < |keys| && bound == keys[cursor]
    }

    /** The start-up state: cursor 0, bound to the first credential. */
    constructor (keys: seq<string>)
      requires |keys| > 0
      ensures Valid() && this.keys == keys && cursor == 0
    {
      this.keys := keys;
      cursor := 0;
      bound := keys[0];
    }

    /** `call_api`. */
    method Call(model: string, prompt: string, maxRetries: Option<int>, oracle: Oracle)
      returns (res: CallResult, calls: nat)
      requires Valid()
      modifies this
      ensures Valid()
      ensures Outcome(res, cursor, calls) == CallSpec(keys, old(cursor), model, prompt, maxRetries, oracle)
    {
      var limit := if maxRetries.Some? then maxRetries.value else |keys|;
      var attempts := 0;
      calls := 0;
      while attempts < limit
        invariant Valid()
        invariant calls == attempts
        invariant attempts == 0 ==> cursor == old(cursor)
        invariant limit <= 0 ==> attempts == 0
        invariant 0 < limit ==> attempts < limit
        invariant 0 < limit ==> CallSpec(keys, old(cursor), model, prompt, maxRetries, oracle)
                                == Attempts(keys, cursor, model, prompt, limit, attempts, oracle)
        decreases limit - attempts
      {
        var reply := oracle(bound, model, prompt);
        calls := calls + 1;
        if !Failed(reply) {
          return Answer(reply.text), calls;
        }
        attempts := attempts + 1;
        if attempts < limit {
          if cursor == |keys| - 1 {
            cursor := 0;
          } else {
            cursor := cursor + 1;
          }
          bound := keys[cursor];
        } else {
          return Exhausted(limit), calls;
        }
      }
      res := NoAnswer;
    }
  }

  /** Three credentials, the first of which always fails: the first call rotates
      to the second and answers; the next call starts on the second credential
      and answers at once, without trying the first again. */
  method CursorCarriesOver() returns (first: CallResult, firstCalls: nat, second: CallResult, secondCalls: nat)
    ensures first == Answer("ok") && firstCalls == 2
    ensures second == Answer("ok") && secondCalls == 1
  {
    var c := new RotatingClient(["k0", "k1", "k2"]);
    var oracle: Oracle := (key, model, prompt) => if key == "k0" then Raised else Response("ok");
    var keys := c.keys;
    assert KeyAt(keys, 0, 0) == "k0" && KeyAt(keys, 0, 1) == "k1" && KeyAt(keys, 1, 0) == "k1";
    FirstSuccessReturned(keys, 0, "m", "p", None, oracle, 1);
    first, firstCalls := c.Call("m", "p", None, oracle);
    assert c.cursor == 1;
    FirstSuccessReturned(keys, 1, "m", "q", None, oracle, 0);
    second, secondCalls := c.Call("m", "q", None, oracle);
  }
}
