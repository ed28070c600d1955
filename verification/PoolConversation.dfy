/**
 One conversation of the pool: its dataset content, drawn when it is first scheduled, the message
 history replayed so far, and the turn it is at.
 */
module PoolConversation {
  import opened Shared

  datatype Message = Message(role: string, content: string)

  /** What the dataset provides: a completion prompt, or the prepared messages of every turn, of
      which only the last, the new user message, is used. */
  datatype Source = Completion(prompt: string) | Chat(turns: seq<seq<Message>>)

  datatype Conversation = Conversation(source: Option<Source>, history: seq<Message>, turn: nat)

  const FRESH := Conversation(None, [], 0)

  datatype Request = Prompt(text: string) | Messages(messages: seq<Message>)

  /** How a request ends: answered in full, with an error, or cut off by cancellation. */
  datatype Outcome = Answered(text: string) | Errored | Cut

  /** The conversation after a turn, whether it is to be replaced, and the request sent, if any. */
  datatype TurnResult = TurnResult(conv: Conversation, replace: bool, request: Option<Request>)

  function Assistant(text: string): Message { Message("assistant", text) }

  predicate HasTurn(c: Conversation) {
    c.source.Some? && c.source.value.Chat? && c.turn < |c.source.value.turns| && c.source.value.turns[c.turn] != []
  }

  function UserMessage(c: Conversation): Message
    requires HasTurn(c)
  {
    var prepared := c.source.value.turns[c.turn];
    prepared[|prepared| - 1]
  }

  function Turn(c: Conversation, o: Outcome): TurnResult
    requires c.source.Some?
  {
    if c.source.value.Completion? then TurnResult(c, true, Some(Prompt(c.source.value.prompt)))
    else if !HasTurn(c) then TurnResult(c, true, None)
    else
      var asked := c.(history := c.history + [UserMessage(c)]);
      var request := Some(Messages(asked.history));
      match o
      case Answered(text) =>
        var answered := asked.(history := asked.history + [Assistant(text)], turn := c.turn + 1);
        TurnResult(answered, answered.turn >= |c.source.value.turns|, request)
      case _ => TurnResult(asked, true, request)
  }

  /** The conversation object that the stream holding it updates in place. */
  class PooledConversation {
    const id: nat
    var source: Option<Source>
    var history: seq<Message>
    var turn: nat

    constructor (id: nat)
      ensures this.id == id && View() == FRESH
    {
      this.id := id;
      source, history, turn := None, [], 0;
    }

    ghost function View(): Conversation
      reads this
    {
      Conversation(source, history, turn)
    }

    method Materialise(drawn: Source)
      modifies this
      ensures View() == old(View()).(source := if old(source).None? then Some(drawn) else old(source))
    {
      if source.None? {
        source := Some(drawn);
      }
    }

    method RunTurn(o: Outcome) returns (replace: bool, request: Option<Request>)
      requires source.Some?
      modifies this
      ensures TurnResult(View(), replace, request) == Turn(old(View()), o)
    {
      if source.value.Completion? {
        return true, Some(Prompt(source.value.prompt));
      }
      var turns := source.value.turns;
      if turn >= |turns| || |turns[turn]| == 0 {
        return true, None;
      }
      var prepared := turns[turn];
      history := history + [prepared[|prepared| - 1]];
      request := Some(Messages(history));
      if !o.Answered? {
        return true, request;
      }
      history := history + [Assistant(o.text)];
      turn := turn + 1;
      replace := turn >= |turns|;
    }
  }

  // ---------------------------------------------------------------- request ids

  function Digit(d: nat): char
    requires d < 10
  {
    ('0' as int + d) as char
  }

  function Decimal(n: nat): (s: string)
    ensures |s| >= 1
    ensures forall i | 0 <= i < |s| :: '0' <= s[i] <= '9'
  {
    if n < 10 then [Digit(n)] else Decimal(n / 10) + [Digit(n % 10)]
  }

  lemma {:induction false} DecimalInjective(m: nat, n: nat)
    requires Decimal(m) == Decimal(n)
    ensures m == n
  {
    var s := Decimal(m);
    assert s[|s| - 1] == Digit(m % 10);
    assert s[|s| - 1] == Digit(n % 10);
    if m >= 10 && n >= 10 {
      assert Decimal(m / 10) == s[..|s| - 1] == Decimal(n / 10);
      DecimalInjective(m / 10, n / 10);
    }
  }

  /** The id under which turn `turn` of conversation `conv` is recorded. */
  function RequestId(conv: nat, turn: nat): string {
    "pool-c" + Decimal(conv) + "-t" + Decimal(turn)
  }

  lemma RequestIdInjective(c: nat, t: nat, d: nat, u: nat)
    requires RequestId(c, t) == RequestId(d, u)
    ensures c == d && t == u
  {
    var x, y := RequestId(c, t), RequestId(d, u);
    var m, n := |Decimal(c)|, |Decimal(d)|;
    assert x[6..6 + m] == Decimal(c) && x[6..6 + n] == Decimal(d);
    assert forall i | 0 <= i < m :: x[6 + i] == Decimal(c)[i];
    assert forall i | 0 <= i < n :: x[6 + i] == Decimal(d)[i];
    assert x[6 + m] == '-' && y[6 + n] == '-';
    assert m == n;
    assert x[6 + m + 2..] == Decimal(t) && y[6 + m + 2..] == Decimal(u);
    DecimalInjective(c, d);
    DecimalInjective(t, u);
  }
}
