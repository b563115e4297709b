/** The string formats the Redis clients write and read back: decimal integers and separated lists. */
module Text {
  import opened Wrappers

  function DigitChar(d: nat): char
    requires d < 10
  {
    ('0' as int + d) as char
  }

  function NatText(n: nat): string {
    if n < 10 then [DigitChar(n)] else NatText(n / 10) + [DigitChar(n % 10)]
  }

  /** Python's '%d' and str() of an integer. */
  function IntText(n: int): string {
    if n < 0 then "-" + NatText(-n) else NatText(n)
  }

  function ParseNat(s: string): Option<nat> {
    if s == "" || !('0' <= s[|s| - 1] <= '9') then
      None
    else
      var digit := s[|s| - 1] as int - '0' as int;
      if |s| == 1 then Some(digit)
      else match ParseNat(s[..|s| - 1])
        case None => None
        case Some(front) => Some(10 * front + digit)
  }

  /** Python's int() on the plain decimal forms; None stands for ValueError. */
  function ParseInt(s: string): Option<int> {
    if s != "" && s[0] == '-' then
      var digits := ParseNat(s[1..]);
      if digits.None? then None else Some(0 - digits.value)
    else
      ParseNat(s)
  }

  lemma {:induction false} NatRoundTrip(n: nat)
    ensures ParseNat(NatText(n)) == Some(n)
    ensures NatText(n) != "" && forall c :: c in NatText(n) ==> '0' <= c <= '9'
  {
    if n >= 10 {
      NatRoundTrip(n / 10);
      var s := NatText(n);
      assert s[..|s| - 1] == NatText(n / 10);
    }
  }

  lemma IntRoundTrip(n: int)
    ensures ParseInt(IntText(n)) == Some(n)
    ensures ',' !in IntText(n)
  {
    NatRoundTrip(if n < 0 then -n else n);
    if n < 0 {
      assert IntText(n)[1..] == NatText(-n);
    } else {
      assert NatText(n)[0] in NatText(n);
    }
  }

  /** The digits are in decimal order, the highest first. */
  lemma IntTextSpelled()
    ensures IntText(0) == "0" && IntText(-120) == "-120" && IntText(3600) == "3600"
  {
    assert NatText(1) == "1" && NatText(12) == "12" && NatText(120) == "120";
    assert NatText(3) == "3" && NatText(36) == "36" && NatText(360) == "360" && NatText(3600) == "3600";
  }

  /** Python's s.split(sep) for a one-character separator. */
  function Split(s: string, sep: char): (r: seq<string>)
    ensures |r| >= 1
  {
    if s == "" then [""]
    else if s[0] == sep then [""] + Split(s[1..], sep)
    else
      var rest := Split(s[1..], sep);
      [[s[0]] + rest[0]] + rest[1..]
  }

  /** Python's sep.join(parts). */
  function Join(parts: seq<string>, sep: char): string {
    if parts == [] then ""
    else if |parts| == 1 then parts[0]
    else parts[0] + [sep] + Join(parts[1..], sep)
  }

  /** One separator between two parts, none at the ends. */
  lemma JoinSpelled()
    ensures Join(["a", "b", ""], ',') == "a,b,"
  {
    assert ["a", "b", ""][1..] == ["b", ""] && ["b", ""][1..] == [""];
    assert Join([""], ',') == "" && Join(["b", ""], ',') == "b,";
  }

  lemma {:induction false} SplitPlain(s: string, sep: char)
    requires sep !in s
    ensures Split(s, sep) == [s]
  {
    if s != "" {
      SplitPlain(s[1..], sep);
      assert [s[0]] + s[1..] == s;
    }
  }

  lemma {:induction false} SplitHead(head: string, sep: char, tail: string)
    requires sep !in head
    ensures Split(head + [sep] + tail, sep) == [head] + Split(tail, sep)
  {
    var s := head + [sep] + tail;
    if head == "" {
      assert s[1..] == tail;
    } else {
      SplitHead(head[1..], sep, tail);
      assert s[1..] == head[1..] + [sep] + tail;
      assert [head[0]] + head[1..] == head;
    }
  }

  lemma {:induction false} SplitJoin(parts: seq<string>, sep: char)
    requires parts != [] && forall p :: p in parts ==> sep !in p
    ensures Split(Join(parts, sep), sep) == parts
  {
    assert parts[0] in parts;
    if |parts| == 1 {
      SplitPlain(parts[0], sep);
    } else {
      SplitJoin(parts[1..], sep);
      SplitHead(parts[0], sep, Join(parts[1..], sep));
    }
  }

  lemma {:induction false} SplitPiecesPlain(s: string, sep: char)
    ensures forall p :: p in Split(s, sep) ==> sep !in p
  {
    if s != "" {
      SplitPiecesPlain(s[1..], sep);
      assert forall p :: p in Split(s[1..], sep)[1..] ==> p in Split(s[1..], sep);
    }
  }
}
