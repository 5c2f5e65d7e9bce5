/** Frames, and the decimal text in which integers travel. */
module Frames {

  newtype byte = x: int | 0 <= x < 256

  datatype Option<+T> = None | Some(value: T)

  /** `CP_MAX_MSG_SIZE`: every frame is a buffer of this many bytes. */
  const FRAME_SIZE: nat := 256

  /** What a frame holds: an integer printed in decimal, a name, a modification time, or 256 bytes of a file. */
  datatype Frame = Num(n: int) | Text(s: string) | Stamp(t: int) | Part(bytes: seq<byte>)

  function Digit(d: nat): char
    requires d < 10
  {
    '0' + d as char
  }

  function Digits(n: nat): (s: string)
    ensures |s| > 0
  {
    if n < 10 then [Digit(n)] else Digits(n / 10) + [Digit(n % 10)]
  }

  /** The integer as `snprintf("%d")` prints it. */
  function Printed(n: int): string {
    if n < 0 then "-" + Digits(-n) else Digits(n)
  }

  predicate IsDigit(c: char) {
    '0' <= c <= '9'
  }

  /** The value of the leading digits, counting on from `acc`. */
  function LeadingValue(s: string, acc: nat): nat {
    if s == "" || !IsDigit(s[0]) then acc
    else LeadingValue(s[1..], 10 * acc + (s[0] as int - '0' as int))
  }

  predicate IsSpace(c: char) {
    c == ' ' || '\t' <= c <= '\r'
  }

  /** `atoi`: white space, a sign, digits; whatever follows is ignored. */
  function Atoi(s: string): int {
    if s != "" && IsSpace(s[0]) then Atoi(s[1..])
    else if s != "" && s[0] == '-' then -(LeadingValue(s[1..], 0) as int)
    else if s != "" && s[0] == '+' then LeadingValue(s[1..], 0)
    else LeadingValue(s, 0)
  }

  /** The integer a program reads from a frame. Dates and file parts are never read as one. */
  function AsInt(f: Frame): int {
    match f
    case Num(n) => n
    case Text(s) => Atoi(s)
    case _ => 0
  }

  lemma {:induction false} DigitsRead(n: nat, rest: string, acc: nat) returns (scale: nat)
    requires rest == "" || !IsDigit(rest[0])
    ensures LeadingValue(Digits(n) + rest, acc) == acc * scale + n
    ensures IsDigit(Digits(n)[0])
  {
    scale := DigitsPrefix(n, rest, acc);
    assert LeadingValue(rest, acc * scale + n) == acc * scale + n;
  }

  lemma {:induction false} DigitsPrefix(n: nat, rest: string, acc: nat) returns (scale: nat)
    ensures LeadingValue(Digits(n) + rest, acc) == LeadingValue(rest, acc * scale + n)
    ensures IsDigit(Digits(n)[0])
  {
    if n < 10 {
      scale := 10;
      assert ([Digit(n)] + rest)[1..] == rest;
    } else {
      var last := [Digit(n % 10)] + rest;
      var high := DigitsPrefix(n / 10, last, acc);
      assert Digits(n) + rest == Digits(n / 10) + last;
      assert last[1..] == rest;
      scale := 10 * high;
      assert 10 * (acc * high + n / 10) + n % 10 == acc * scale + n;
    }
  }

  /** Integer framing: what `sendInteger` prints, `atoi` on the other side reads back. */
  lemma IntegerFraming(n: int)
    ensures Atoi(Printed(n)) == n
  {
    var m: nat := if n < 0 then -n else n;
    var scale := DigitsRead(m, "", 0);
    assert Digits(m) + "" == Digits(m);
    assert n < 0 ==> Printed(n)[1..] == Digits(m);
  }
}
