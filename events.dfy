/** The outbound events the services push to a session, and their JSON text as
    `json.dumps` writes it (default separators `", "` and `": "`). */
module Events {
  import opened Wrappers
  import opened Dtos

  datatype TypingStatus = Start | Stop

  datatype Event =
    | Typing(status: TypingStatus)              // {"type": "typing", "status": ...}
    | ChapterCompleted(completionId: int)       // {"type": "chapter_completed", "completion_id": ...}

  /** One call a service makes on the connection registry, in call order: `send_json` with
      an event, or `send_text` with a serialised message. */
  datatype Outbound =
    | SendJson(sessionId: int, event: Event)
    | SendText(sessionId: int, message: SessionMessageDTO)

  const TypingStartText: string := "{\"type\": \"typing\", \"status\": \"start\"}"
  const TypingStopText: string := "{\"type\": \"typing\", \"status\": \"stop\"}"
  const CompletedPrefix: string := "{" + "\"type\": \"chapter_completed\", \"completion_id\": "

  function Digit(d: int): char
    requires 0 <= d < 10
  {
    "0123456789"[d]
  }

  predicate IsDigit(c: char) { '0' <= c <= '9' }

  function NatToString(n: nat): (s: string)
    ensures |s| > 0 && forall i :: 0 <= i < |s| ==> IsDigit(s[i])
  {
    if n < 10 then [Digit(n)] else NatToString(n / 10) + [Digit(n % 10)]
  }

  /** Decimal text of an integer, as Python writes it. */
  function IntToString(n: int): string {
    if n < 0 then "-" + NatToString(-n) else NatToString(n)
  }

  function DigitsValue(s: string): nat
    requires forall i :: 0 <= i < |s| ==> IsDigit(s[i])
  {
    if s == [] then 0
    else assert IsDigit(s[|s| - 1]); 10 * DigitsValue(s[..|s| - 1]) + (s[|s| - 1] as int - '0' as int)
  }

  function ParseInt(s: string): Option<int> {
    if |s| > 1 && s[0] == '-' && forall i :: 1 <= i < |s| ==> IsDigit(s[i]) then Some(-(DigitsValue(s[1..]) as int))
    else if |s| > 0 && forall i :: 0 <= i < |s| ==> IsDigit(s[i]) then Some(DigitsValue(s))
    else None
  }

  /** The JSON text `send_json` writes for an event: one object, a typing text exactly for a
      typing event. */
  function Encode(e: Event): (r: string)
    ensures |r| > 1 && r[0] == '{' && r[|r| - 1] == '}'
    ensures e.Typing? <==> r == TypingStartText || r == TypingStopText
  {
    match e
    case Typing(Start) => TypingStartText
    case Typing(Stop) => TypingStopText
    case ChapterCompleted(id) =>
      var text := CompletedPrefix + IntToString(id) + "}";
      assert text[0] == CompletedPrefix[0];
      text
  }

  function Decode(s: string): Option<Event> {
    if s == TypingStartText then Some(Typing(Start))
    else if s == TypingStopText then Some(Typing(Stop))
    else if |s| > |CompletedPrefix| + 1 && s[..|CompletedPrefix|] == CompletedPrefix && s[|s| - 1] == '}' then
      match ParseInt(s[|CompletedPrefix|..|s| - 1])
      case Some(id) => Some(ChapterCompleted(id))
      case None => None
    else None
  }

  lemma {:induction false} NatToStringRoundTrip(n: nat)
    ensures DigitsValue(NatToString(n)) == n
  {
    if n >= 10 {
      NatToStringRoundTrip(n / 10);
      var s := NatToString(n);
      assert s[..|s| - 1] == NatToString(n / 10);
    }
  }

  lemma ParseDigits(s: string)
    requires |s| > 0 && forall i :: 0 <= i < |s| ==> IsDigit(s[i])
    ensures ParseInt(s) == Some(DigitsValue(s))
  {
    assert IsDigit(s[0]);
  }

  lemma ParseNegated(digits: string)
    requires |digits| > 0 && forall i :: 0 <= i < |digits| ==> IsDigit(digits[i])
    ensures ParseInt("-" + digits) == Some(-(DigitsValue(digits) as int))
  {
    var s := "-" + digits;
    assert s[1..] == digits;
    assert forall i :: 1 <= i < |s| ==> s[i] == digits[i - 1];
  }

  lemma IntToStringRoundTrip(n: int)
    ensures ParseInt(IntToString(n)) == Some(n)
  {
    if n < 0 {
      NegativeRoundTrip(n);
    } else {
      NatRoundTrip(n);
    }
  }

  lemma NegativeRoundTrip(n: int)
    requires n < 0
    ensures ParseInt("-" + NatToString(-n)) == Some(n)
  {
    NatToStringRoundTrip(-n);
    ParseNegated(NatToString(-n));
  }

  lemma NatRoundTrip(n: nat)
    ensures ParseInt(NatToString(n)) == Some(n)
  {
    NatToStringRoundTrip(n);
    ParseDigits(NatToString(n));
  }

  /** Every event the services send is recovered from its JSON text: the encoding loses nothing
      and no two events share a text. */
  lemma DecodeEncode(e: Event)
    ensures Decode(Encode(e)) == Some(e)
  {
    if e.ChapterCompleted? {
      var digits := IntToString(e.completionId);
      var s := Encode(e);
      IntToStringRoundTrip(e.completionId);
      assert s[..|CompletedPrefix|] == CompletedPrefix;
      assert s[|CompletedPrefix|..|s| - 1] == digits;
    }
  }

  lemma EncodeInjective(e1: Event, e2: Event)
    requires Encode(e1) == Encode(e2)
    ensures e1 == e2
  {
    DecodeEncode(e1);
    DecodeEncode(e2);
  }
}
