/**
 * The messages the dock handler exchanges.  An inbound message is the JSON object Gson produced,
 * reduced to the members the handler inspects; each present member is held as the handler sees it
 * through `JsonElement.toString()`, i.e. as JSON text (a JSON string keeps its quotes).
 */
module Messages {
  import opened Options
  import IrCodes

  /**
   * One character of `String.equalsIgnoreCase` against an ASCII literal: two characters agree when
   * their upper cases, or the lower cases of their upper cases, agree.  Besides A-Z that brings in
   * U+0130 and U+0131 (as `i`), U+212A KELVIN SIGN (as `k`) and U+017F LONG S (as `s`).
   */
  function FoldCase(c: char): char {
    if 'A' <= c <= 'Z' then (c as int + 32) as char
    else if c == '\U{0130}' || c == '\U{0131}' then 'i'
    else if c == '\U{212A}' then 'k'
    else if c == '\U{017F}' then 's'
    else c
  }

  /** An ASCII letter, the only kind of character in a literal that another character can stand in for. */
  predicate IsAsciiLetter(c: char) { 'a' <= c <= 'z' || 'A' <= c <= 'Z' }

  /**
   * `text.equalsIgnoreCase(literal)` for an ASCII `literal`: every string equals itself, and only
   * strings of the literal's length qualify.
   */
  predicate EqualsIgnoreCase(text: string, literal: string)
    ensures text == literal ==> EqualsIgnoreCase(text, literal)
    ensures EqualsIgnoreCase(text, literal) ==> |text| == |literal|
  {
    |text| == |literal| && forall i :: 0 <= i < |text| ==> FoldCase(text[i]) == FoldCase(literal[i])
  }

  /**
   * Only letters are matched loosely: wherever an ASCII literal has no letter (a quote, an
   * underscore), a text equal to it ignoring case has the very same character.
   */
  lemma EqualsIgnoreCaseKeepsNonLetters(text: string, literal: string, i: nat)
    requires EqualsIgnoreCase(text, literal)
    requires forall j :: 0 <= j < |literal| ==> literal[j] < '\U{80}'
    requires i < |literal| && !IsAsciiLetter(literal[i])
    ensures text[i] == literal[i]
  {
    assert FoldCase(text[i]) == FoldCase(literal[i]);
  }

  /** The upper and lower case of an ASCII letter; any other character is its own. */
  function AsciiUpper(c: char): char {
    if 'a' <= c <= 'z' then (c as int - 32) as char else c
  }

  function AsciiLower(c: char): char {
    if 'A' <= c <= 'Z' then (c as int + 32) as char else c
  }

  /**
   * When a character stands for one of an ASCII literal, character by character as Java defines it:
   * it is the same character, or the literal's is a letter and this is that letter in either case,
   * or a character whose case mapping leads to it (U+0130 and U+0131 for `i`, U+212A for `k`,
   * U+017F for `s`).
   */
  predicate SameIgnoringCase(c: char, l: char) {
    || c == l
    || (IsAsciiLetter(l) &&
         (|| c == AsciiLower(l) || c == AsciiUpper(l)
          || (AsciiLower(l) == 'i' && (c == '\U{0130}' || c == '\U{0131}'))
          || (AsciiLower(l) == 'k' && c == '\U{212A}')
          || (AsciiLower(l) == 's' && c == '\U{017F}')))
  }

  /**
   * `EqualsIgnoreCase` against an ASCII literal is the character-by-character definition above:
   * in particular every upper- or lower-case variant of the literal matches it.
   */
  lemma EqualsIgnoreCaseExactly(text: string, literal: string)
    requires forall j :: 0 <= j < |literal| ==> literal[j] < '\U{80}'
    ensures EqualsIgnoreCase(text, literal) <==>
      |text| == |literal| && forall i :: 0 <= i < |text| ==> SameIgnoringCase(text[i], literal[i])
  {
    if |text| == |literal| {
      forall i | 0 <= i < |text|
        ensures FoldCase(text[i]) == FoldCase(literal[i]) <==> SameIgnoringCase(text[i], literal[i])
      {
        assert literal[i] < '\U{80}';
      }
    }
  }

  /** The authentication answer matches in any case, for instance all upper case. */
  lemma UpperCaseAuthOkMatches()
    ensures EqualsIgnoreCase("\"AUTH_OK\"", AuthOkType)
    ensures !EqualsIgnoreCase("\"AUTH-OK\"", AuthOkType)
  {
    EqualsIgnoreCaseExactly("\"AUTH_OK\"", AuthOkType);
    assert FoldCase("\"AUTH-OK\""[5]) != FoldCase(AuthOkType[5]);
  }

  // The JSON text the handler compares members with (note the quotes).
  const AuthRequiredType := "\"auth_required\""
  const AuthOkType := "\"auth_ok\""
  const DockType := "\"dock\""
  const PongMessage := "\"pong\""
  const IrSendMessage := "\"ir_send\""
  const IrReceiveCommand := "\"ir_receive\""
  const TrueText := "true"

  /**
   * A parsed inbound JSON object: the text of each member the handler reads, if present, and how
   * many other members it has.  (`msgType` is the member called `type`.)
   */
  datatype InboundJson = InboundJson(
    msgType: Option<string>,
    message: Option<string>,
    success: Option<string>,
    command: Option<string>,
    code: Option<string>,
    otherMembers: nat)

  function Count(f: Option<string>): nat {
    if f.Some? then 1 else 0
  }

  /** `JsonObject.size()` */
  function Size(m: InboundJson): (n: nat)
    ensures n == 0 <==> m == InboundJson(None, None, None, None, None, 0)
  {
    Count(m.msgType) + Count(m.message) + Count(m.success) + Count(m.command) + Count(m.code) + m.otherMembers
  }

  /** The member is present and its text equals `literal` ignoring case. */
  predicate FieldIs(f: Option<string>, literal: string) {
    f.Some? && EqualsIgnoreCase(f.value, literal)
  }

  /**
   * The messages whose decoding reads only members that are present.  On any other message the
   * handler calls `toString()` on the `null` that `get` returns for `success`, `command` or `code`.
   */
  predicate Decodable(m: InboundJson) {
    if m.msgType.None? then true
    else if FieldIs(m.msgType, AuthRequiredType) || FieldIs(m.msgType, AuthOkType) then true
    else if FieldIs(m.msgType, DockType) && m.message.Some? then
      !FieldIs(m.message, PongMessage) && FieldIs(m.message, IrSendMessage) ==> m.success.Some?
    else
      m.command.Some? && (FieldIs(m.command, IrReceiveCommand) ==> m.code.Some?)
  }

  /** What a decoded message is, before its effect on the handler. */
  datatype Inbound =
    | AuthRequired
    | AuthOk
    | Pong
    | IrSendAck(succeeded: bool)
    | IrReceive(rawCode: string)
    | Unrecognized

  /**
   * The classification `decodeReceivedMessage` makes, rule by rule: `type` first (always required),
   * then `message` for a dock message, and `command` only when `type` is neither authentication
   * type nor a dock message carrying `message`.
   */
  function Classify(m: InboundJson): (r: Inbound)
    requires Decodable(m)
    ensures m.msgType.None? ==> r == Unrecognized
    ensures r == AuthRequired <==> FieldIs(m.msgType, AuthRequiredType)
    ensures r == AuthOk <==> FieldIs(m.msgType, AuthOkType)
    ensures r == Pong <==> FieldIs(m.msgType, DockType) && FieldIs(m.message, PongMessage)
    ensures r.IrSendAck? <==> FieldIs(m.msgType, DockType) && FieldIs(m.message, IrSendMessage)
    ensures r.IrSendAck? ==> (r.succeeded <==> EqualsIgnoreCase(m.success.value, TrueText))
    ensures r.IrReceive? <==>
      && m.msgType.Some?
      && !FieldIs(m.msgType, AuthRequiredType) && !FieldIs(m.msgType, AuthOkType)
      && !(FieldIs(m.msgType, DockType) && m.message.Some?)
      && FieldIs(m.command, IrReceiveCommand)
    ensures r.IrReceive? ==> r.rawCode == m.code.value
  {
    if m.msgType.None? then Unrecognized
    else if FieldIs(m.msgType, AuthRequiredType) then AuthRequired
    else if FieldIs(m.msgType, AuthOkType) then AuthOk
    else if FieldIs(m.msgType, DockType) && m.message.Some? then
      if FieldIs(m.message, PongMessage) then Pong
      else if FieldIs(m.message, IrSendMessage) then IrSendAck(EqualsIgnoreCase(m.success.value, TrueText))
      else Unrecognized
    else if FieldIs(m.command, IrReceiveCommand) then IrReceive(m.code.value)
    else Unrecognized
  }

  /** `s.replace("\"", "")` */
  function StripQuotes(s: string): (r: string)
    ensures '"' !in r
    ensures |r| <= |s|
    ensures '"' !in s ==> r == s
    ensures forall c :: c != '"' ==> (c in r <==> c in s)
    decreases |s|
  {
    if s == [] then []
    else
      assert s == [s[0]] + s[1..];
      assert multiset(s) == multiset{s[0]} + multiset(s[1..]);
      if s[0] == '"' then StripQuotes(s[1..])
      else [s[0]] + StripQuotes(s[1..])
  }

  /** Removing quotes drops every quote and keeps every other character as often as it occurs. */
  lemma {:induction false} StripQuotesCounts(s: string)
    ensures multiset(StripQuotes(s)) == multiset(s)['"' := 0]
    decreases |s|
  {
    if s != [] {
      assert s == [s[0]] + s[1..];
      assert multiset(s) == multiset{s[0]} + multiset(s[1..]);
      StripQuotesCounts(s[1..]);
    }
  }

  /**
   * Removing quotes works piece by piece: with `StripQuotes([c])` being `[]` for a quote and `[c]`
   * otherwise, this fixes the result completely, every other character kept in its place.
   */
  lemma {:induction false} StripQuotesAppend(a: string, b: string)
    ensures StripQuotes(a + b) == StripQuotes(a) + StripQuotes(b)
    ensures |a| == 1 ==> StripQuotes(a) == (if a[0] == '"' then [] else a)
    decreases |a|
  {
    if a != [] {
      assert (a + b)[0] == a[0];
      assert (a + b)[1..] == a[1..] + b;
      StripQuotesAppend(a[1..], b);
      if |a| == 1 {
        assert a[1..] == [];
      }
    } else {
      assert a + b == b;
    }
  }

  /** The code the handler keeps from an `ir_receive` message: the unquoted text if it is an IR code, else empty. */
  function ReceivedCode(raw: string): (code: string)
    ensures code == "" || IrCodes.IsIrCode(code)
    ensures IrCodes.IsIrCode(StripQuotes(raw)) ==> code == StripQuotes(raw)
    ensures code != "" ==> code == StripQuotes(raw)
  {
    var text := StripQuotes(raw);
    if IrCodes.IsIrCode(text) then text else ""
  }

  /** A message the handler hands to the websocket; only its kind and payload are recorded. */
  datatype OutMsg =
    | Authenticate(token: string)
    | Heartbeat
    | IrReceiverOn
    | IrReceiverOff
    | IrSend(code: string)

  /** The command arriving on a channel: `OnOffType.ON`, `OnOffType.OFF`, or any other command. */
  datatype Command = On | Off | OtherCommand
}
