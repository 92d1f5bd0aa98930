/**
 * The distance telemetry: what one `recv` chunk does to the distance cell.
 *
 * The listener decodes each chunk of at most 1024 bytes, strips it with
 * `str.strip()` and converts the whole remainder with `float()`; only a
 * successful conversion overwrites the cell.  This module models those two
 * Python built-ins on text and the resulting cell transition.
 */
module Telemetry {
  import opened Wrappers
  import opened Numerals
  import opened Text

  /** A Python float as far as this model needs it: finite values are exact. */
  datatype Float = Finite(value: real) | Infinity(negative: bool) | NaN

  /** `x < bound` on a Python float: false for NaN, true for -inf only. */
  predicate Below(x: Float, bound: real)
  {
    match x
    case Finite(v) => v < bound
    case Infinity(negative) => negative
    case NaN => false
  }

  // ---------------------------------------------------------------- strip()

  /** The characters `str.strip()` removes (Python's `str.isspace()`). */
  predicate IsSpace(c: char)
  {
    || c == ' ' || '\t' <= c <= '\r' || '\U{1c}' <= c <= '\U{1f}' || c == '\U{85}' || c == '\U{a0}'
    || c == '\U{1680}' || '\U{2000}' <= c <= '\U{200a}' || c == '\U{2028}' || c == '\U{2029}'
    || c == '\U{202f}' || c == '\U{205f}' || c == '\U{3000}'
  }

  predicate NoSpace(s: string) { forall i | 0 <= i < |s| :: !IsSpace(s[i]) }

  /** `s.lstrip()`: a suffix of `s`, all that was cut is whitespace. */
  function StripLeft(s: string): (r: string)
    ensures |r| <= |s| && r == s[|s| - |r|..]
    ensures forall i | 0 <= i < |s| - |r| :: IsSpace(s[i])
    ensures r != [] ==> !IsSpace(r[0])
  {
    if s != [] && IsSpace(s[0]) then StripLeft(s[1..]) else s
  }

  /** `s.rstrip()`: a prefix of `s`, all that was cut is whitespace. */
  function StripRight(s: string): (r: string)
    ensures |r| <= |s| && r == s[..|r|]
    ensures forall i | |r| <= i < |s| :: IsSpace(s[i])
    ensures r != [] ==> !IsSpace(r[|r| - 1])
  {
    if s != [] && IsSpace(s[|s| - 1]) then StripRight(s[..|s| - 1]) else s
  }

  /** `s.strip()`: neither end of the result is whitespace, and text already so is kept. */
  function Strip(s: string): (r: string)
    ensures |r| <= |s|
    ensures r != [] ==> !IsSpace(r[0]) && !IsSpace(r[|r| - 1])
    ensures (s == [] || (!IsSpace(s[0]) && !IsSpace(s[|s| - 1]))) ==> r == s
  {
    StripRight(StripLeft(s))
  }

  // ---------------------------------------------------------------- float()
  //
  // Python's grammar for the text `float()` accepts:
  //   [sign] (number [exponent] | "inf" | "infinity" | "nan")   the words in any case
  //   number   ::= [digitpart] "." digitpart | digitpart ["."]
  //   exponent ::= ("e" | "E") [sign] digitpart
  //   digitpart ::= digit (["_"] digit)*
  // The functions below scan a string by index.

  predicate IsDigitOrSeparator(c: char) { IsDigit(c) || c == '_' }

  /** End of the longest digit part that starts at `i` (`i` itself when `s[i]` is not a digit). */
  function DigitPartEnd(s: string, i: nat): (j: nat)
    requires i <= |s|
    ensures i <= j <= |s|
    ensures forall k | i <= k < j :: IsDigitOrSeparator(s[k])
    decreases |s| - i
  {
    if i == |s| || !IsDigit(s[i]) then i
    else if i + 1 < |s| && IsDigit(s[i + 1]) then DigitPartEnd(s, i + 1)
    else if i + 2 < |s| && s[i + 1] == '_' && IsDigit(s[i + 2]) then DigitPartEnd(s, i + 2)
    else i + 1
  }

  /** Value of the digits in `s[i..j]`, separators ignored. */
  function DigitPartValue(s: string, i: nat, j: nat): nat
    requires i <= j <= |s|
    requires forall k | i <= k < j :: IsDigitOrSeparator(s[k])
    decreases j
  {
    if j == i then 0
    else
      var c := s[j - 1];
      assert IsDigitOrSeparator(c);
      if c == '_' then DigitPartValue(s, i, j - 1) else 10 * DigitPartValue(s, i, j - 1) + DigitValue(c)
  }

  /** Number of digits in `s[i..j]`. */
  function DigitCount(s: string, i: nat, j: nat): nat
    requires i <= j <= |s|
    decreases j
  {
    if j == i then 0 else DigitCount(s, i, j - 1) + if IsDigit(s[j - 1]) then 1 else 0
  }

  function Pow10(e: int): (p: real)
    ensures p > 0.0
    decreases if e < 0 then -e else e
  {
    if e == 0 then 1.0 else if e > 0 then 10.0 * Pow10(e - 1) else Pow10(e + 1) / 10.0
  }

  /** `x` moved `n` decimal places to the right, one place at a time. */
  function ShiftRight(x: real, n: nat): real
  {
    if n == 0 then x else ShiftRight(x, n - 1) / 10.0
  }

  /** Moving `n` places to the right is dividing by `10^n`. */
  lemma {:induction false} ShiftRightDivides(x: real, n: nat)
    ensures ShiftRight(x, n) == x / Pow10(n)
  {
    if n > 0 {
      ShiftRightDivides(x, n - 1);
      assert Pow10(n) == 10.0 * Pow10(n - 1);
    }
  }

  /** The optional exponent that ends the text from `i` on, applied to the mantissa `m`. */
  function ParseExponent(s: string, i: nat, m: real): Option<real>
    requires i <= |s|
  {
    if i == |s| then Some(m)
    else if s[i] != 'e' && s[i] != 'E' then None
    else
      var k := i + 1;
      var negative := k < |s| && s[k] == '-';
      var u := if k < |s| && (s[k] == '+' || s[k] == '-') then k + 1 else k;
      if u < |s| && DigitPartEnd(s, u) == |s| then
        var e: int := DigitPartValue(s, u, |s|);
        Some(m * Pow10(if negative then -e else e))
      else None
  }

  /** The unsigned number that must fill the text from `i` on. */
  function ParseNumber(s: string, i: nat): Option<real>
    requires i <= |s|
  {
    var a := DigitPartEnd(s, i);
    var whole := DigitPartValue(s, i, a) as real;
    if a < |s| && s[a] == '.' then
      var b := DigitPartEnd(s, a + 1);
      if a == i && b == a + 1 then None
      else ParseExponent(s, b, whole + ShiftRight(DigitPartValue(s, a + 1, b) as real, DigitCount(s, a + 1, b)))
    else if a == i then None
    else ParseExponent(s, a, whole)
  }

  /**
   * `float(s)` on a string that has already been stripped: `None` where Python
   * raises `ValueError`.
   */
  function ParseFloat(s: string): (r: Option<Float>)
    ensures s == [] ==> r == None
  {
    var negative := s != [] && s[0] == '-';
    var start := if s != [] && (s[0] == '+' || s[0] == '-') then 1 else 0;
    var word := Lower(s[start..]);
    if word == "inf" || word == "infinity" then Some(Infinity(negative))
    else if word == "nan" then Some(NaN)
    else
      match ParseNumber(s, start)
      case Some(v) => Some(Finite(if negative then -v else v))
      case None => None
  }

  // ---------------------------------------------------------------- the cell

  /** One result of `conn.recv(1024)` followed by `data.decode()`. */
  datatype Chunk =
    | Received(text: string)   // non-empty data that decoded to `text`
    | Closed                    // empty data: the peer closed the connection
    | Faulty                    // recv raised, or the bytes are not valid UTF-8

  /** What a chunk means to the listener's loop. */
  datatype Event = Reading(value: Float) | Noise | End

  /** `float(text.strip())` succeeds: `Reading`; it raises `ValueError`: `Noise`; the loop ends: `End`. */
  function Classify(c: Chunk): Event
  {
    match c
    case Received(text) => (match ParseFloat(Strip(text)) case Some(f) => Reading(f) case None => Noise)
    case _ => End
  }

  function Events(chunks: seq<Chunk>): (es: seq<Event>)
    ensures |es| == |chunks|
    ensures forall j | 0 <= j < |chunks| :: es[j] == Classify(chunks[j])
  {
    if chunks == [] then [] else [Classify(chunks[0])] + Events(chunks[1..])
  }

  /** The listener's state after one event: the cell, and whether it keeps listening. */
  datatype Listener = Listener(distance: Float, listening: bool)

  function Apply(d: Float, e: Event): Listener
  {
    match e
    case Reading(f) => Listener(f, true)
    case Noise => Listener(d, true)
    case End => Listener(d, false)
  }

  /** One pass of the listener's loop body on the cell `d`. */
  function Receive(d: Float, c: Chunk): Listener
  {
    Apply(d, Classify(c))
  }

  /**
   * A chunk that parses overwrites the cell whatever it held; one that does
   * not leaves it unchanged; only data chunks keep the loop going.
   */
  lemma ReceiveOverwritesOnlyOnParse(d: Float, c: Chunk)
    ensures Receive(d, c).listening <==> c.Received?
    ensures c.Received? && ParseFloat(Strip(c.text)).Some? ==>
      Receive(d, c).distance == ParseFloat(Strip(c.text)).value
    ensures !(c.Received? && ParseFloat(Strip(c.text)).Some?) ==> Receive(d, c).distance == d
  {
  }

  /** The cell after the listener's loop has consumed `events` (it stops at the first `End`). */
  function Listen(d: Float, events: seq<Event>): Float
    decreases |events|
  {
    if events == [] then d
    else
      var r := Apply(d, events[0]);
      if r.listening then Listen(r.distance, events[1..]) else r.distance
  }

  /** Last write wins: after the loop the cell holds the last reading before the stream ended. */
  lemma {:induction false} ListenLastWriteWins(d: Float, events: seq<Event>, k: nat)
    requires k < |events| && events[k].Reading?
    requires forall j | k < j < |events| :: events[j] == Noise
    requires forall j | 0 <= j < k :: !events[j].End?
    ensures Listen(d, events) == events[k].value
    decreases k
  {
    var r := Apply(d, events[0]);
    if k == 0 {
      ListenIgnoresNoise(r.distance, events[1..]);
    } else {
      ListenLastWriteWins(r.distance, events[1..], k - 1);
    }
  }

  /** Chunks that do not parse leave the cell as it was. */
  lemma {:induction false} ListenIgnoresNoise(d: Float, events: seq<Event>)
    requires forall j | 0 <= j < |events| :: !events[j].Reading?
    ensures Listen(d, events) == d
    decreases |events|
  {
    if events != [] {
      ListenIgnoresNoise(d, events[1..]);
    }
  }

  /** Nothing after the end of the stream reaches the cell. */
  lemma {:induction false} ListenStopsAtEnd(d: Float, before: seq<Event>, after: seq<Event>)
    requires forall j | 0 <= j < |before| :: !before[j].End?
    ensures Listen(d, before + [End] + after) == Listen(d, before)
    decreases |before|
  {
    if before == [] {
      assert ([] + [End] + after)[0] == End;
    } else {
      assert (before + [End] + after)[1..] == before[1..] + [End] + after;
      ListenStopsAtEnd(Apply(d, before[0]).distance, before[1..], after);
    }
  }

  /**
   * The listener as it runs beside the detection loop: the events it handles
   * in one stretch of time, from the cell and the flag that says whether its
   * loop still runs.  A listener that has ended hears nothing more.
   */
  function Hear(l: Listener, events: seq<Event>): Listener
    decreases |events|
  {
    if !l.listening || events == [] then l else Hear(Apply(l.distance, events[0]), events[1..])
  }

  /** A running listener handles the first event, then the rest. */
  lemma HearFirst(d: Float, events: seq<Event>)
    requires events != []
    ensures Hear(Listener(d, true), events) == Hear(Apply(d, events[0]), events[1..])
  {
  }

  /** A running listener's cell ends as `Listen` says; it is still running exactly when no `End` came. */
  lemma {:induction false} HearIsListen(d: Float, events: seq<Event>)
    ensures Hear(Listener(d, true), events).distance == Listen(d, events)
    ensures Hear(Listener(d, true), events).listening <==> forall j | 0 <= j < |events| :: !events[j].End?
    decreases |events|
  {
    if events != [] {
      HearIsListen(Apply(d, events[0]).distance, events[1..]);
      assert forall j | 1 <= j < |events| :: events[j] == events[1..][j - 1];
    }
  }

  /** Hearing a stream in two stretches is hearing it in one. */
  lemma {:induction false} HearAppend(l: Listener, a: seq<Event>, b: seq<Event>)
    ensures Hear(l, a + b) == Hear(Hear(l, a), b)
    decreases |a|
  {
    if a == [] {
      assert a + b == b;
    } else if l.listening {
      assert (a + b)[0] == a[0];
      assert (a + b)[1..] == a[1..] + b;
      HearAppend(Apply(l.distance, a[0]), a[1..], b);
    }
  }

  /** A running listener that handles one chunk holding a reading stores it and keeps running. */
  lemma HearOneReading(d: Float, c: Chunk, v: Float)
    requires Classify(c) == Reading(v)
    ensures Hear(Listener(d, true), Events([c])) == Listener(v, true)
  {
    assert Events([c]) == [Reading(v)];
    assert Events([c])[1..] == [];
  }

  /** The chunk `40` is the reading 40. */
  lemma FortyRead()
    ensures Classify(Received("40")) == Reading(Finite(40.0))
  {
    var text := "40";
    assert DigitsToNat(text) == 40 by {
      assert text[..1] == "4";
      assert "4"[..0] == [];
    }
    UnsignedDigits(text, 40);
    assert !IsSpace(text[0]) && !IsSpace(text[1]);
    assert Strip(text) == text;
  }

  /** The events of two runs of chunks are those of the first, then those of the second. */
  lemma {:induction false} EventsAppend(a: seq<Chunk>, b: seq<Chunk>)
    ensures Events(a + b) == Events(a) + Events(b)
  {
  }

  // ---------------------------------------------------------------- round trip

  lemma {:induction false} DigitPartEndOfDigits(s: string, i: nat)
    requires i < |s| && forall k | i <= k < |s| :: IsDigit(s[k])
    ensures DigitPartEnd(s, i) == |s|
  {
    DigitRunEnd(s, i, |s|);
  }

  /** A run of digits that the text or a character other than a digit or `_` ends is one digit part. */
  lemma {:induction false} DigitRunEnd(s: string, i: nat, j: nat)
    requires i < j <= |s| && forall k | i <= k < j :: IsDigit(s[k])
    requires j < |s| ==> !IsDigitOrSeparator(s[j])
    ensures DigitPartEnd(s, i) == j
    decreases j - i
  {
    if i + 1 < j {
      DigitRunEnd(s, i + 1, j);
    }
  }

  lemma {:induction false} DigitPartValueOfDigits(s: string, j: nat)
    requires j <= |s| && forall k | 0 <= k < j :: IsDigit(s[k])
    ensures DigitPartValue(s, 0, j) == DigitsToNat(s[..j])
  {
    if j > 0 {
      DigitPartValueOfDigits(s, j - 1);
      assert s[..j][..j - 1] == s[..j - 1];
    }
  }

  lemma NumberOfDigits(s: string, start: nat)
    requires start < |s| && forall k | start <= k < |s| :: IsDigit(s[k])
    ensures ParseNumber(s, start) == Some(DigitPartValue(s, start, |s|) as real)
  {
    DigitPartEndOfDigits(s, start);
  }

  lemma UnsignedDigits(s: string, v: nat)
    requires s != [] && AllDigits(s) && v == DigitsToNat(s)
    ensures ParseFloat(s) == Some(Finite(v as real))
  {
    NumberOfDigits(s, 0);
    DigitPartValueOfDigits(s, |s|);
    assert s[..|s|] == s && s[0..] == s;
    LowerAt(s, 0);
  }

  lemma {:induction false} DigitPartValueShift(s: string, j: nat)
    requires 1 <= j <= |s| && forall k | 1 <= k < |s| :: IsDigit(s[k])
    ensures DigitPartValue(s, 1, j) == DigitPartValue(s[1..], 0, j - 1)
  {
    if j > 1 {
      DigitPartValueShift(s, j - 1);
    }
  }

  lemma NegatedDigits(s: string, v: nat)
    requires s != [] && AllDigits(s) && v == DigitsToNat(s)
    ensures ParseFloat("-" + s) == Some(Finite(-(v as real)))
  {
    var t := "-" + s;
    assert t[1..] == s;
    LowerAt(s, 0);
    NumberOfDigits(t, 1);
    DigitPartValueShift(t, |t|);
    DigitPartValueOfDigits(s, |s|);
    assert s[..|s|] == s;
  }

  /** `float(str(n))` gives back `n`: integer readings are read exactly. */
  lemma IntegerReadingRoundTrip(n: int)
    ensures ParseFloat(IntToString(n)) == Some(Finite(n as real))
  {
    if n < 0 {
      var s := NatToString(-n);
      DigitsOfNatToString(-n);
      NegatedDigits(s, -n);
      assert IntToString(n) == "-" + s;
    } else {
      var s := NatToString(n);
      DigitsOfNatToString(n);
      UnsignedDigits(s, n);
    }
  }

  /** The value of a digit part does not depend on the text before it. */
  lemma {:induction false} DigitPartValueFrom(s: string, i: nat, j: nat)
    requires i <= j <= |s| && forall k | i <= k < j :: IsDigit(s[k])
    ensures DigitPartValue(s, i, j) == DigitPartValue(s[i..], 0, j - i)
    decreases j
  {
    if j > i {
      DigitPartValueFrom(s, i, j - 1);
      assert s[i..][j - 1 - i] == s[j - 1];
    }
  }

  lemma {:induction false} DigitCountOfDigits(s: string, i: nat, j: nat)
    requires i <= j <= |s| && forall k | i <= k < j :: IsDigit(s[k])
    ensures DigitCount(s, i, j) == j - i
    decreases j
  {
    if j > i {
      DigitCountOfDigits(s, i, j - 1);
    }
  }

  /** A text that starts with a digit is read as an unsigned number, never as `inf` or `nan`. */
  lemma DigitFirst(s: string, x: real)
    requires s != [] && IsDigit(s[0]) && ParseNumber(s, 0) == Some(x)
    ensures ParseFloat(s) == Some(Finite(x))
  {
    assert s[0..] == s;
    LowerAt(s, 0);
  }

  /** A digit run, a point and a digit run fill the text: the number is the whole part plus the scaled fraction. */
  lemma DecimalNumber(s: string, m: nat)
    requires 0 < m < |s| - 1 && s[m] == '.'
    requires forall k | 0 <= k < |s| && k != m :: IsDigit(s[k])
    ensures ParseNumber(s, 0) ==
      Some(DigitPartValue(s, 0, m) as real + ShiftRight(DigitPartValue(s, m + 1, |s|) as real, |s| - m - 1))
  {
    DigitRunEnd(s, 0, m);
    DigitRunEnd(s, m + 1, |s|);
    DigitCountOfDigits(s, m + 1, |s|);
  }

  /**
   * `float("a.b")` for digit runs `a` and `b` is `a` plus `b` scaled by its
   * number of places: the value of a decimal such as "12.0" or "12.34".
   */
  lemma DecimalReading(a: string, b: string, whole: nat, frac: nat)
    requires a != [] && AllDigits(a) && b != [] && AllDigits(b)
    requires whole == DigitsToNat(a) && frac == DigitsToNat(b)
    ensures ParseFloat(a + "." + b) == Some(Finite(whole as real + ShiftRight(frac as real, |b|)))
  {
    var s := a + "." + b;
    assert s[0] == a[0];
    DecimalNumberOf(a, b);
    DigitFirst(s, whole as real + ShiftRight(frac as real, |b|));
  }

  /** The unsigned number `a.b`. */
  lemma DecimalNumberOf(a: string, b: string)
    requires a != [] && AllDigits(a) && b != [] && AllDigits(b)
    ensures ParseNumber(a + "." + b, 0) == Some(DigitsToNat(a) as real + ShiftRight(DigitsToNat(b) as real, |b|))
  {
    var s := a + "." + b;
    DecimalParts(a, b);
    DecimalNumber(s, |a|);
    ScaledCongruence(DigitPartValue(s, 0, |a|), DigitPartValue(s, |a| + 1, |s|), |s| - |a| - 1,
                     DigitsToNat(a), DigitsToNat(b), |b|);
  }

  lemma ScaledCongruence(w: nat, f: nat, p: nat, w': nat, f': nat, p': nat)
    requires w == w' && f == f' && p == p'
    ensures w as real + ShiftRight(f as real, p) == w' as real + ShiftRight(f' as real, p')
  {
  }

  /** In `a.b`, the digit part before the point has the value of `a`, the one after it the value of `b`. */
  lemma DecimalParts(a: string, b: string)
    requires a != [] && AllDigits(a) && b != [] && AllDigits(b)
    ensures var s, m := a + "." + b, |a|;
      && m + 1 + |b| == |s| && s[0] == a[0] && s[m] == '.'
      && (forall k | 0 <= k < |s| && k != m :: IsDigit(s[k]))
      && DigitPartValue(s, 0, m) == DigitsToNat(a)
      && DigitPartValue(s, m + 1, |s|) == DigitsToNat(b)
  {
    var s := a + "." + b;
    var m := |a|;
    assert forall k | 0 <= k < m :: s[k] == a[k];
    assert forall k | m < k < |s| :: s[k] == b[k - m - 1];
    DigitPartValueOfDigits(s, m);
    assert s[..m] == a;
    DigitPartValueFrom(s, m + 1, |s|);
    assert s[m + 1..] == b;
    DigitPartValueOfDigits(b, |b|);
    assert b[..|b|] == b;
  }

  /** Stripping a line ended by a newline removes only the newline when the line has no outer whitespace. */
  lemma StripLine(u: string)
    requires u != [] && !IsSpace(u[0]) && !IsSpace(u[|u| - 1])
    ensures Strip(u + "\n") == u
  {
    var t := u + "\n";
    assert t[0] == u[0];
    assert StripLeft(t) == t;
    assert t[..|t| - 1] == u;
    assert StripRight(u) == u;
  }

  /**
   * A line as the sender writes it, `f"{dist}\n"` for a distance printed as
   * `a.b`, arriving alone in a chunk is a reading of exactly that decimal.
   */
  lemma SenderLineRead(a: string, b: string, whole: nat, frac: nat)
    requires a != [] && AllDigits(a) && b != [] && AllDigits(b)
    requires whole == DigitsToNat(a) && frac == DigitsToNat(b)
    ensures Classify(Received(a + "." + b + "\n")) == Reading(Finite(whole as real + ShiftRight(frac as real, |b|)))
  {
    var u := a + "." + b;
    assert u[0] == a[0] && u[|u| - 1] == b[|b| - 1];
    StripLine(u);
    DecimalReading(a, b, whole, frac);
  }

  // ---------------------------------------------------------------- whole chunks

  predicate FloatChar(c: char) { IsDigitOrSeparator(c) || c == '.' || c == 'e' || c == 'E' || c == '+' || c == '-' }

  /** Every character of `s` from `i` on can occur in a number. */
  predicate FloatTextFrom(s: string, i: nat) { forall k | i <= k < |s| :: FloatChar(s[k]) }

  lemma ExponentChars(s: string, i: nat, m: real)
    requires i <= |s| && ParseExponent(s, i, m).Some?
    ensures FloatTextFrom(s, i)
  {
  }

  lemma NumberChars(s: string, i: nat)
    requires i <= |s| && ParseNumber(s, i).Some?
    ensures FloatTextFrom(s, i)
  {
    var a := DigitPartEnd(s, i);
    var whole := DigitPartValue(s, i, a) as real;
    if a < |s| && s[a] == '.' {
      var b := DigitPartEnd(s, a + 1);
      ExponentChars(s, b, whole + ShiftRight(DigitPartValue(s, a + 1, b) as real, DigitCount(s, a + 1, b)));
    } else {
      ExponentChars(s, a, whole);
    }
  }

  /** A character `float()` can accept somewhere in its input. */
  predicate TextChar(c: char) { FloatChar(c) || 'a' <= LowerChar(c) <= 'z' }

  /** A letter-only word of the grammar is made of characters that fold to letters. */
  lemma WordChars(body: string, i: nat)
    requires var w := Lower(body); w == "inf" || w == "infinity" || w == "nan"
    requires i < |body|
    ensures 'a' <= LowerChar(body[i]) <= 'z'
  {
    var w := Lower(body);
    LowerAt(body, i);
    if w == "inf" {
      assert 'a' <= w[i] <= 'z';
    } else if w == "infinity" {
      assert 'a' <= w[i] <= 'z';
    } else {
      assert 'a' <= w[i] <= 'z';
    }
  }

  /** `float()` accepts only digits, separators, points, signs, exponents and the letters of `inf`/`nan`. */
  lemma ParsedTextChar(s: string, i: nat)
    requires ParseFloat(s).Some? && i < |s|
    ensures TextChar(s[i])
  {
    var start := if s != [] && (s[0] == '+' || s[0] == '-') then 1 else 0;
    var word := Lower(s[start..]);
    if i >= start {
      if word == "inf" || word == "infinity" || word == "nan" {
        WordChars(s[start..], i - start);
      } else {
        NumberChars(s, start);
      }
    }
  }

  /**
   * After the optional sign, text that starts with neither a digit nor a point
   * is a number only as one of the words: any other letter raises `ValueError`.
   */
  lemma NotWordNotNumber(s: string)
    requires var start := if s != [] && (s[0] == '+' || s[0] == '-') then 1 else 0;
      && start < |s| && !IsDigit(s[start]) && s[start] != '.'
      && var w := Lower(s[start..]); w != "inf" && w != "infinity" && w != "nan"
    ensures ParseFloat(s) == None
  {
  }

  /** `abc` folds to itself, which is none of the words. */
  lemma LettersFold()
    ensures Lower("abc") == "abc"
  {
    var s := "abc";
    LowerAt(s, 0);
    LowerAt(s, 1);
    LowerAt(s, 2);
  }

  /** `abc` is not a number. */
  lemma LettersNotNumber()
    ensures ParseFloat("abc") == None
  {
    var s := "abc";
    assert s[0..] == s;
    LettersFold();
    NotWordNotNumber(s);
  }

  /** A chunk `abc` is noise: the cell keeps its value and the loop goes on. */
  lemma LettersChunkIgnored(d: Float)
    ensures Receive(d, Received("abc")) == Listener(d, true)
  {
    LettersNotNumber();
    var s := "abc";
    assert s[0] == 'a' && s[|s| - 1] == 'c';
    assert !IsSpace('a') && !IsSpace('c');
    assert Strip(s) == s;
    assert Classify(Received(s)) == Noise;
  }

  /** Text with a newline inside it is not a number. */
  lemma NewlineNotNumber(u: string, k: nat)
    requires k < |u| && u[k] == '\n'
    ensures ParseFloat(u) == None
  {
    if ParseFloat(u).Some? {
      ParsedTextChar(u, k);
    }
  }

  /** Stripping two newline-ended readings removes only the final newline. */
  lemma StripTwoReadings(first: string, second: string)
    requires first != [] && !IsSpace(first[0])
    requires second != [] && !IsSpace(second[|second| - 1])
    ensures Strip(first + "\n" + second + "\n") == first + "\n" + second
  {
    var t := first + "\n" + second + "\n";
    var u := first + "\n" + second;
    assert t[0] == first[0];
    assert StripLeft(t) == t;
    assert t[..|t| - 1] == u;
    assert u[|u| - 1] == second[|second| - 1];
    assert StripRight(u) == u;
  }

  /**
   * A chunk that carries two readings, each ended by a newline, is not a
   * number once stripped: it is noise, and the cell keeps its old value.
   */
  lemma TwoReadingsInOneChunkIgnored(first: string, second: string)
    requires first != [] && !IsSpace(first[0])
    requires second != [] && !IsSpace(second[|second| - 1])
    ensures Classify(Received(first + "\n" + second + "\n")) == Noise
  {
    StripTwoReadings(first, second);
    var u := first + "\n" + second;
    assert u[|first|] == '\n';
    NewlineNotNumber(u, |first|);
  }
}
