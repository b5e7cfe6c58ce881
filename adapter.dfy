/**
 * The per-connection half of src/main.go's handlerGen: what the handler does
 * with each value the coordinator put on its channel. A count is written to
 * the socket as the text {"count":N}; an id assignment writes nothing and
 * sets the handler's own copy of the player's Id.
 *
 * The decimal text is strconv.Itoa's. A reference reader of that text shows
 * that no information is lost on the wire.
 */
module Adapter {
  import opened Wrappers
  import opened Coordinator

  // ---------------------------------------------------------------------
  // strconv.Itoa

  function DigitChar(d: nat): (c: char)
    requires d < 10
    ensures '0' <= c <= '9'
  {
    (48 + d) as char
  }

  predicate IsDigit(c: char)
  {
    '0' <= c <= '9'
  }

  function DigitValue(c: char): (d: nat)
    requires IsDigit(c)
    ensures d < 10 && DigitChar(d) == c
  {
    (c as int - 48) as nat
  }

  /** The decimal digits of n, most significant first, with no leading zero. */
  function NatToDecimal(n: nat): (s: string)
    ensures |s| >= 1
    ensures forall i :: 0 <= i < |s| ==> IsDigit(s[i])
    ensures s[0] == '0' ==> n == 0 && s == "0"
    decreases n
  {
    if n < 10 then [DigitChar(n)] else NatToDecimal(n / 10) + [DigitChar(n % 10)]
  }

  /** strconv.Itoa: a minus sign before the digits of a negative number. */
  function Itoa(n: int): (s: string)
    ensures |s| >= 1
    ensures (s[0] == '-') <==> n < 0
    ensures n < 0 ==> s[1..] == NatToDecimal(-n)
    ensures n >= 0 ==> s == NatToDecimal(n)
  {
    if n < 0 then "-" + NatToDecimal(-n) else NatToDecimal(n)
  }


  // ---------------------------------------------------------------------
  // A reference reader of that text

  /** The value of a non-empty string of decimal digits. */
  function DigitsValue(s: string): nat
    requires |s| >= 1 && forall i :: 0 <= i < |s| ==> IsDigit(s[i])
    decreases |s|
  {
    if |s| == 1 then DigitValue(s[0])
    else DigitsValue(s[..|s| - 1]) * 10 + DigitValue(s[|s| - 1])
  }

  function ParseNat(s: string): Option<nat>
  {
    if |s| >= 1 && forall i :: 0 <= i < |s| ==> IsDigit(s[i]) then Some(DigitsValue(s)) else None
  }

  function ParseInt(s: string): Option<int>
  {
    if |s| >= 1 && s[0] == '-' then
      match ParseNat(s[1..])
      case Some(v) => Some(-(v as int))
      case None => None
    else
      match ParseNat(s)
      case Some(v) => Some(v)
      case None => None
  }

  const CountPrefix: string := "{\"count\":"

  /** Read {"count":N} back; anything else is None. */
  function ParseCountMessage(s: string): Option<int>
  {
    if |s| >= |CountPrefix| + 1 && s[..|CountPrefix|] == CountPrefix && s[|s| - 1] == '}' then
      ParseInt(s[|CountPrefix|..|s| - 1])
    else None
  }

  /** The digits of n read back as n. */
  lemma {:induction false} NatToDecimalRoundTrip(n: nat)
    ensures DigitsValue(NatToDecimal(n)) == n
    decreases n
  {
    if n >= 10 {
      var s := NatToDecimal(n);
      NatToDecimalRoundTrip(n / 10);
      assert s[..|s| - 1] == NatToDecimal(n / 10);
    }
  }

  /** The digits of n parse as n. */
  lemma ParseNatOfDecimal(n: nat)
    ensures ParseNat(NatToDecimal(n)) == Some(n)
  {
    NatToDecimalRoundTrip(n);
  }

  /** Itoa's text read back as the same integer. */
  lemma ItoaRoundTrip(n: int)
    ensures ParseInt(Itoa(n)) == Some(n)
  {
    if n < 0 {
      var d := NatToDecimal(-n);
      ParseNatOfDecimal(-n);
      assert ("-" + d)[1..] == d;
    } else {
      ParseNatOfDecimal(n);
    }
  }

  /** Different counts are written as different text. */
  lemma ItoaInjective(a: int, b: int)
    ensures Itoa(a) == Itoa(b) ==> a == b
  {
    ItoaRoundTrip(a);
    ItoaRoundTrip(b);
  }

  /**
   * The text the handler writes for a count, {"count":N}; the count read back
   * from it is the count the coordinator sent.
   */
  function CountMessage(n: int): (s: string)
    ensures ParseCountMessage(s) == Some(n)
  {
    var s := CountPrefix + Itoa(n) + "}";
    assert s[..|CountPrefix|] == CountPrefix;
    assert s[|CountPrefix|..|s| - 1] == Itoa(n);
    ItoaRoundTrip(n);
    s
  }

  // ---------------------------------------------------------------------
  // The handler's reaction to one value from its channel

  /** What the handler knows after one value: its Id and what it wrote, if anything. */
  datatype Translation = Translation(id: int, written: Option<string>)

  /**
   * Lines 166-175 of src/main.go, on a handler whose current Id is `id`: a
   * count keeps the Id and writes a message that reads back as that count;
   * an id assignment writes nothing and takes the assigned Id.
   */
  function Translate(id: int, n: Notification): (t: Translation)
    ensures n.Count? ==> t.id == id && t.written.Some? && ParseCountMessage(t.written.value) == Some(n.n)
    ensures n.IdAssigned? ==> t.id == n.id && t.written.None?
  {
    match n
    case Count(c) => Translation(id, Some(CountMessage(c)))
    case IdAssigned(a) => Translation(a, None)
  }

  /** What one value makes the handler write: the count's message, or nothing. */
  function Written(n: Notification): seq<string>
  {
    var t := Translate(0, n);
    if t.written.Some? then [t.written.value] else []
  }

  /** The messages written for a list of values: one per count, in order. */
  function Wire(items: seq<Notification>): seq<string>
    decreases |items|
  {
    if items == [] then [] else Wire(items[..|items| - 1]) + Written(items[|items| - 1])
  }

  /** The handler's Id after a list of values: the last assignment, or the Id it started with. */
  function FinalId(id: int, items: seq<Notification>): int
    decreases |items|
  {
    if items == [] then id else Translate(FinalId(id, items[..|items| - 1]), items[|items| - 1]).id
  }

  /**
   * One connection's handler: its copy of the player's Id (0 until the
   * coordinator assigns one) and every message written to its socket.
   */
  class Connection {
    var id: int
    var written: seq<string>

    constructor ()
      ensures id == 0 && written == []
    {
      id := 0;
      written := [];
    }

    /** One value arrives from the channel. */
    method Receive(n: Notification)
      modifies this
      ensures id == Translate(old(id), n).id
      ensures written == old(written) + Written(n)
    {
      match n
      case Count(c) =>
        written := written + [CountMessage(c)];
      case IdAssigned(a) =>
        id := a;
    }

    /** The values of a channel, taken in the order they were sent. */
    method ReceiveAll(items: seq<Notification>)
      modifies this
      ensures id == FinalId(old(id), items)
      ensures written == old(written) + Wire(items)
    {
      var i := 0;
      while i < |items|
        invariant 0 <= i <= |items|
        invariant id == FinalId(old(id), items[..i])
        invariant written == old(written) + Wire(items[..i])
      {
        Receive(items[i]);
        assert items[..i + 1][..i] == items[..i];
        i := i + 1;
      }
      assert items[..i] == items;
    }
  }

  /**
   * A newcomer's handler, having read everything the Join put on its fresh
   * channel, holds the assigned id and has written exactly one message: the
   * new count.
   */
  lemma NewcomerLearnsIdThenCount(s: ServerState, ch: Channel)
    requires ch !in s.mailboxes
    ensures var t := Step(s, Join(ch));
            t.status == Running ==>
              && ch in t.next.mailboxes
              && FinalId(0, t.next.mailboxes[ch]) == LeastFreeId(s.players).value
              && Wire(t.next.mailboxes[ch]) == [CountMessage(s.playerCount + 1)]
              && ParseCountMessage(Wire(t.next.mailboxes[ch])[0]) == Some(s.playerCount + 1)
  {
    JoinNotifiesIdBeforeCount(s, ch);
    var t := Step(s, Join(ch));
    if t.status == Running {
      IdThenCount(LeastFreeId(s.players).value, s.playerCount + 1);
    }
  }

  /** An id and then a count: the handler ends with that id, having written the count. */
  lemma IdThenCount(id: int, n: int)
    ensures FinalId(0, [IdAssigned(id), Count(n)]) == id
    ensures Wire([IdAssigned(id), Count(n)]) == [CountMessage(n)]
  {
    var items := [IdAssigned(id), Count(n)];
    var first := items[..1];
    assert first == [IdAssigned(id)] && first[..0] == [];
    assert FinalId(0, first) == id;
    assert Wire(first) == [];
    assert FinalId(0, items) == Translate(FinalId(0, first), Count(n)).id;
    assert Wire(items) == Wire(first) + Written(Count(n));
  }
}
