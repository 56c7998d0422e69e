/**
 Direct conversation identifiers: "dm:<min>:<max>" as one service prints and another parses it.
 */
module Conversations {
  import opened Options

  const MAX_INT64: int := 0x7FFF_FFFF_FFFF_FFFF

  /** Account numbers are positive 64-bit integers. */
  type Uin = x: int | 0 < x <= 0x7FFF_FFFF_FFFF_FFFF witness 1

  function DigitOf(d: nat): char
    requires d < 10
  {
    '0' + d as char
  }

  predicate IsDigit(c: char) { '0' <= c <= '9' }

  function DigitValue(c: char): nat
    requires IsDigit(c)
  {
    (c - '0') as nat
  }

  predicate AllDigits(s: string) { forall i :: 0 <= i < |s| ==> IsDigit(s[i]) }

  /** strconv.FormatInt of a number that is not negative. */
  function Format(n: nat): string { if n < 10 then [DigitOf(n)] else Format(n / 10) + [DigitOf(n % 10)] }

  function Value(s: string): nat
    requires AllDigits(s)
  {
    if s == [] then 0 else 10 * Value(s[..|s| - 1]) + DigitValue(s[|s| - 1])
  }

  /** strconv.ParseInt with base 10 and 64 bits: an optional sign, then at least one digit, within range. */
  function ParseInt(s: string): Option<int> {
    var signed := s != [] && (s[0] == '+' || s[0] == '-');
    var digits := if signed then s[1..] else s;
    if digits == [] || !AllDigits(digits) then None
    else
      var v: int := Value(digits);
      if signed && s[0] == '-' then (if v <= MAX_INT64 + 1 then Some(-v) else None)
      else if v <= MAX_INT64 then Some(v) else None
  }

  /** strings.Split. */
  function Split(s: string, sep: char): (parts: seq<string>)
    ensures |parts| >= 1
  {
    if s == [] then [[]]
    else if s[0] == sep then [[]] + Split(s[1..], sep)
    else var rest := Split(s[1..], sep); [[s[0]] + rest[0]] + rest[1..]
  }

  /** canonicalConversationID. */
  function Conversation(a: Uin, b: Uin): string {
    var lo, hi := if a > b then b else a, if a > b then a else b;
    "dm" + [':'] + (Format(lo) + ([':'] + Format(hi)))
  }

  /** dmCounterpartUIN. */
  function Counterpart(conversation: string, known: Uin): Option<Uin> {
    var parts := Split(conversation, ':');
    if |parts| != 3 || parts[0] != "dm" then None
    else
      var a, b := ParseInt(parts[1]), ParseInt(parts[2]);
      if a == None || b == None || a.value <= 0 || b.value <= 0 || a.value >= b.value then None
      else if known == a.value then Some(b.value)
      else if known == b.value then Some(a.value)
      else None
  }

  lemma {:induction false} FormatDigits(n: nat)
    ensures Format(n) != [] && AllDigits(Format(n)) && Value(Format(n)) == n
  {
    if n < 10 {
      assert Format(n)[..0] == [];
    } else {
      FormatDigits(n / 10);
      assert Format(n)[..|Format(n)| - 1] == Format(n / 10);
    }
  }

  /** The decimal form has no leading zero, so it is the shortest. */
  lemma {:induction false} NoLeadingZero(n: nat)
    requires 0 < n
    ensures Format(n) != [] && Format(n)[0] != '0'
  {
    if 10 <= n { NoLeadingZero(n / 10); }
  }

  /** The smaller number comes first. */
  lemma ConversationSpells(a: Uin, b: Uin)
    requires a <= b
    ensures Conversation(a, b) == "dm:" + Format(a) + ":" + Format(b) && Conversation(b, a) == Conversation(a, b)
  {
    assert "dm" + [':'] == "dm:";
  }

  lemma FormatParses(n: Uin)
    ensures ParseInt(Format(n)) == Some(n)
  {
    FormatDigits(n);
    assert IsDigit(Format(n)[0]);
  }

  lemma {:induction false} SplitPlain(s: string, sep: char)
    requires sep !in s
    ensures Split(s, sep) == [s]
  {
    if s != [] {
      SplitPlain(s[1..], sep);
      assert s == [s[0]] + s[1..];
    }
  }

  lemma {:induction false} SplitAt(a: string, b: string, sep: char)
    requires sep !in a
    ensures Split(a + ([sep] + b), sep) == [a] + Split(b, sep)
  {
    if a == [] {
      assert a + ([sep] + b) == [sep] + b;
      assert ([sep] + b)[1..] == b;
    } else {
      assert (a + ([sep] + b))[1..] == a[1..] + ([sep] + b);
      SplitAt(a[1..], b, sep);
      assert a == [a[0]] + a[1..];
      assert ([a[1..]] + Split(b, sep))[1..] == Split(b, sep);
    }
  }

  lemma SplitConversation(lo: Uin, hi: Uin)
    ensures Split("dm" + [':'] + (Format(lo) + ([':'] + Format(hi))), ':') == ["dm", Format(lo), Format(hi)]
  {
    FormatDigits(lo);
    FormatDigits(hi);
    assert ':' !in Format(lo) && ':' !in Format(hi);
    var rest := Format(lo) + ([':'] + Format(hi));
    assert "dm" + [':'] + rest == "dm" + ([':'] + rest);
    SplitAt("dm", rest, ':');
    SplitAt(Format(lo), Format(hi), ':');
    SplitPlain(Format(hi), ':');
  }

  /** What one side prints the other reads back: the counterpart of a participant is the other one; nobody else has one, and
      a conversation with oneself has none. */
  lemma CounterpartRoundTrip(a: Uin, b: Uin, known: Uin)
    ensures Counterpart(Conversation(a, b), known) ==
            if a != b && known == a then Some(b) else if a != b && known == b then Some(a) else None
  {
    var lo, hi := if a > b then b else a, if a > b then a else b;
    SplitConversation(lo, hi);
    FormatParses(lo);
    FormatParses(hi);
  }

  /** Both directions share a conversation, and different pairs never do. */
  lemma ConversationInjective(a: Uin, b: Uin, c: Uin, d: Uin)
    ensures Conversation(a, b) == Conversation(c, d) <==> (a == c && b == d) || (a == d && b == c)
  {
    if Conversation(a, b) == Conversation(c, d) {
      var lo, hi := if a > b then b else a, if a > b then a else b;
      var lo', hi' := if c > d then d else c, if c > d then c else d;
      SplitConversation(lo, hi);
      SplitConversation(lo', hi');
      FormatParses(lo);
      FormatParses(hi);
      FormatParses(lo');
      FormatParses(hi');
    }
  }
}
