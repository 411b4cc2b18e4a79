/**
  The input budget: a conservative token estimate of a request's encoded size, over the rationals, and
  the check that the two requests of an owner's reasoning pass.
 */
module ContextBudgets {
  import opened Wrappers

  // ----- The estimate

  /** The least whole number not below `a / b`. */
  function CeilDiv(a: nat, b: nat): (c: nat)
    requires b > 0
    ensures c * b >= a && (c > 0 ==> (c - 1) * b < a)
  {
    (a + b - 1) / b
  }

  /** Bytes divided by 3, times 1.15, rounded up, and 8 for framing: less would not hold 23 sixtieths a byte. */
  function EstimateBytes(bytes: nat): (tokens: nat)
    ensures 60 * (tokens - 9) < 23 * bytes <= 60 * (tokens - 8)
  {
    AtLeastOne(CeilDiv(23 * bytes, 60) + 8)
  }

  function AtLeastOne(n: int): nat {
    if n < 1 then 1 else n
  }

  lemma EstimateIsMonotone(b: nat, b': nat)
    requires b <= b'
    ensures EstimateBytes(b) <= EstimateBytes(b')
  {
  }

  /** Some more bytes add what they come to by themselves, rounded up, or one token less. */
  lemma MoreBytesAddAtMost(b: nat, c: nat)
    ensures EstimateBytes(b + c) <= EstimateBytes(b) + CeilDiv(23 * c, 60) <= EstimateBytes(b + c) + 1
  {
  }

  // ----- Budgets

  datatype Budget = Budget(window: int, reserve: int, safety: int)

  function Usable(b: Budget): int {
    b.window - b.reserve - b.safety
  }

  ghost predicate BudgetValid(b: Budget) {
    b.window > 0 && b.reserve >= 0 && b.safety >= 0 && b.window > b.reserve + b.safety
  }

  datatype Error = BadBudget | NothingUsable | OverBudget(estimated: nat, limit: int)

  function MakeBudget(window: int, reserve: int, safety: int): (r: Result<Budget, Error>)
    ensures r.Ok? <==> BudgetValid(Budget(window, reserve, safety))
    ensures r.Ok? ==> r.value == Budget(window, reserve, safety) && Usable(r.value) == window - (reserve + safety) > 0
    ensures r.Err? ==> r.error == if window > 0 && reserve >= 0 && safety >= 0 then NothingUsable else BadBudget
  {
    if window <= 0 || reserve < 0 || safety < 0 then Err(BadBudget)
    else if window - reserve - safety <= 0 then Err(NothingUsable)
    else Ok(Budget(window, reserve, safety))
  }

  predicate Fits(b: Budget, estimated: nat) {
    estimated <= Usable(b)
  }

  // ----- Requests

  /** A message as the request encodes it: its framing, and its content escaped and in UTF-8. */
  datatype Message = Message(framing: nat, content: nat)

  function MessageBytes(messages: seq<Message>): nat {
    if messages == [] then 0
    else MessageBytes(messages[..|messages| - 1]) + messages[|messages| - 1].framing + messages[|messages| - 1].content
  }

  function RequestBytes(envelope: nat, messages: seq<Message>): (bytes: nat)
    ensures messages == [] ==> bytes == envelope
  {
    envelope + MessageBytes(messages)
  }

  function EstimateRequest(envelope: nat, messages: seq<Message>): nat {
    EstimateBytes(RequestBytes(envelope, messages))
  }

  /** The second request repeats the first one's messages and adds its completion and the actions prompt. */
  function SecondMessages(first: seq<Message>, framing: nat, completion: nat, actions: Message): seq<Message> {
    first + [Message(framing, completion), actions]
  }

  /** The size of the second request with an empty completion, and the whole output reserve for the real one. */
  function Stage2Estimate(b: Budget, envelope: nat, first: seq<Message>, framing: nat, actions: Message): int {
    EstimateRequest(envelope, SecondMessages(first, framing, 0, actions)) + b.reserve
  }

  lemma SecondBytes(envelope: nat, first: seq<Message>, framing: nat, completion: nat, actions: Message)
    ensures RequestBytes(envelope, SecondMessages(first, framing, completion, actions)) ==
            RequestBytes(envelope, first) + framing + completion + actions.framing + actions.content
  {
    var m := Message(framing, completion);
    assert SecondMessages(first, framing, completion, actions)[..|first| + 1] == first + [m];
    assert (first + [m])[..|first|] == first;
    assert MessageBytes(first + [m]) == MessageBytes(first) + framing + completion;
  }

  /**
    When the planned second request fits and the completion stays within the reserve, both requests pass the
    hard check.
   */
  lemma Stage2IsSound(b: Budget, envelope: nat, first: seq<Message>, framing: nat, completion: nat, actions: Message)
    requires BudgetValid(b) && Stage2Estimate(b, envelope, first, framing, actions) <= Usable(b)
    requires CeilDiv(23 * completion, 60) <= b.reserve
    ensures Fits(b, EstimateRequest(envelope, first))
    ensures Fits(b, EstimateRequest(envelope, SecondMessages(first, framing, completion, actions)))
  {
    SecondBytes(envelope, first, framing, 0, actions);
    SecondBytes(envelope, first, framing, completion, actions);
    var planned := RequestBytes(envelope, SecondMessages(first, framing, 0, actions));
    MoreBytesAddAtMost(planned, completion);
    EstimateIsMonotone(RequestBytes(envelope, first), planned);
  }

  /** What rounding up adds to the estimate of some bytes, in sixtieths of a token. */
  function RoundedUp(bytes: nat): nat {
    60 * CeilDiv(23 * bytes, 60) - 23 * bytes
  }

  /**
    The reserve is the exact margin: a plan that just fits passes with the completions that the reserve, and what
    the plan itself was rounded up by, have room for. So two tokens over the reserve are always too many.
   */
  lemma ReserveIsNeeded(b: Budget, envelope: nat, first: seq<Message>, framing: nat, completion: nat, actions: Message)
    requires BudgetValid(b) && Stage2Estimate(b, envelope, first, framing, actions) == Usable(b)
    ensures Fits(b, EstimateRequest(envelope, SecondMessages(first, framing, completion, actions))) <==>
            23 * completion <= 60 * b.reserve
              + RoundedUp(RequestBytes(envelope, SecondMessages(first, framing, 0, actions)))
    ensures CeilDiv(23 * completion, 60) >= b.reserve + 2 ==>
              !Fits(b, EstimateRequest(envelope, SecondMessages(first, framing, completion, actions)))
  {
    SecondBytes(envelope, first, framing, 0, actions);
    SecondBytes(envelope, first, framing, completion, actions);
    var planned := RequestBytes(envelope, SecondMessages(first, framing, 0, actions));
    MoreBytesAddAtMost(planned, completion);
    RoomLeft(planned, completion, b.reserve);
  }

  lemma RoomLeft(planned: nat, more: nat, reserve: nat)
    ensures EstimateBytes(planned + more) <= EstimateBytes(planned) + reserve <==>
            23 * more <= 60 * reserve + RoundedUp(planned)
  {
  }
}
