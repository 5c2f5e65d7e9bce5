/** Chunked transfer of one file, the loop that both programs run in both directions: the sender
    cuts the file into rounds of at most 256 bytes and pads each to a full frame; the receiver is
    told the size, computes the same rounds and keeps the part of each frame that is file. */
module Transfer {
  import opened Frames
  import opened Programs

  const CP_FILE_PART_RECEIVED := 10

  const INT_MAX: int := 0x7fff_ffff

  /** A 64-bit length assigned to a C `int`. */
  function Wrap(n: int): (r: int)
    ensures -INT_MAX - 1 <= r <= INT_MAX
    ensures 0 <= n <= INT_MAX ==> r == n
    ensures 0 <= n ==> r <= n
    ensures (n - r) % (2 * INT_MAX + 2) == 0
  {
    (n + INT_MAX + 1) % (2 * INT_MAX + 2) - INT_MAX - 1
  }

  /** C division truncates toward zero. */
  function Quotient(a: int, b: nat): int
    requires b > 0
  {
    if a >= 0 then a / b else -(-a / b)
  }

  function Remainder(a: int, b: nat): int
    requires b > 0
  {
    a - b * Quotient(a, b)
  }

  /** `iterations`, on either side. */
  function Rounds(size: int): int {
    if Remainder(size, FRAME_SIZE) > 0 then Quotient(size, FRAME_SIZE) + 1 else Quotient(size, FRAME_SIZE)
  }

  /** `sizeToSend` and `sizeToReceive`: what is left, at most one frame of it. */
  function RoundSize(size: int, done: int): int {
    if size - done > FRAME_SIZE then FRAME_SIZE else size - done
  }

  /** Every round carries between 1 and 256 bytes, and after the last one all of them are done. */
  lemma RoundsCover(size: int, i: nat)
    ensures i < Rounds(size) ==> 1 <= RoundSize(size, FRAME_SIZE * i) <= FRAME_SIZE
    ensures i < Rounds(size) ==> (i + 1 == Rounds(size) <==> FRAME_SIZE * i + RoundSize(size, FRAME_SIZE * i) == size)
    ensures i + 1 < Rounds(size) ==> RoundSize(size, FRAME_SIZE * i) == FRAME_SIZE
    ensures Rounds(size) > 0 <==> size > 0
  {
    assert size >= 0 ==> size == FRAME_SIZE * (size / FRAME_SIZE) + size % FRAME_SIZE;
  }

  function SumFrom(size: int, i: nat): int
    decreases Rounds(size) - i
  {
    if i >= Rounds(size) then 0 else RoundSize(size, FRAME_SIZE * i) + SumFrom(size, i + 1)
  }

  /** The sizes of the rounds add up to the size of the file. */
  lemma {:induction false} RoundsSum(size: int, i: nat)
    requires size >= 0 && (i == 0 || i <= Rounds(size))
    ensures SumFrom(size, i) == size - SentBefore(size, i)
    decreases Rounds(size) - i
  {
    RoundsCover(size, i);
    if i < Rounds(size) {
      RoundsSum(size, i + 1);
    } else if i > 0 {
      RoundsCover(size, i - 1);
    }
  }

  type Block = b: seq<byte> | |b| == FRAME_SIZE witness seq(FRAME_SIZE, _ => 0)

  function Padded(chunk: seq<byte>): Block
    requires |chunk| <= FRAME_SIZE
  {
    chunk + seq(FRAME_SIZE - |chunk|, _ => 0)
  }

  /** The bytes of a frame. Only file parts are ever read as bytes. */
  function Bytes(f: Frame): Block {
    if f.Part? && |f.bytes| == FRAME_SIZE then f.bytes else seq(FRAME_SIZE, _ => 0)
  }

  function Clamp(n: int): (r: nat)
    ensures r <= FRAME_SIZE
  {
    if n < 0 then 0 else if n > FRAME_SIZE then FRAME_SIZE else n
  }

  /** What `fread` finds from `done` on: at most `n` bytes, fewer at the end of the file. */
  function Slice(content: seq<byte>, done: nat, n: int): (chunk: seq<byte>)
    ensures |chunk| <= FRAME_SIZE
  {
    if done >= |content| then []
    else if done + Clamp(n) > |content| then content[done..]
    else content[done..done + Clamp(n)]
  }

  /** The frame of the round that starts at `done`. */
  function PartAt(content: seq<byte>, size: int, done: nat): Frame {
    Part(Padded(Slice(content, done, RoundSize(size, done))))
  }

  /** The sender's loop, from round `i` on. The acknowledgement of a part is not checked. */
  function SendParts<S>(content: seq<byte>, size: int, i: nat, next: Program<S>): Program<S>
    decreases Rounds(size) - i
  {
    if i >= Rounds(size) then next
    else Tell(PartAt(content, size, FRAME_SIZE * i),
              Hear(_ => Some(Num(CP_FILE_PART_RECEIVED)), _ => SendParts(content, size, i + 1, next)))
  }

  /** The receiver's loop, from round `i` on. */
  function ReceiveParts<S>(size: int, i: nat, got: seq<byte>, next: seq<byte> -> Program<S>): Program<S>
    decreases Rounds(size) - i
  {
    if i >= Rounds(size) then next(got)
    else Hear(f => Some(f), f => Tell(Num(CP_FILE_PART_RECEIVED),
      ReceiveParts(size, i + 1, got + Bytes(f)[..Clamp(RoundSize(size, |got|))], next)))
  }

  /** What arrives of a file: all of it while its length is an `int`, else what the wrapped size says. */
  function Delivered(content: seq<byte>): seq<byte> {
    if Wrap(|content|) < 0 then [] else content[..Wrap(|content|)]
  }

  /** The bytes the sender has read when it starts round `i`. */
  function SentBefore(size: int, i: nat): nat {
    if size <= 0 then 0 else if FRAME_SIZE * i > size then size else FRAME_SIZE * i
  }

  /** One round leaves the receiver with the next piece of the file. */
  lemma OneRound(content: seq<byte>, size: int, i: nat)
    requires i < Rounds(size) && 0 < size <= |content|
    ensures var done := SentBefore(size, i);
      done == FRAME_SIZE * i
      && content[..done] + Bytes(PartAt(content, size, done))[..Clamp(RoundSize(size, done))] == content[..SentBefore(size, i + 1)]
  {
    RoundsCover(size, i);
    var done := FRAME_SIZE * i;
    var n := RoundSize(size, done);
    assert Slice(content, done, n) == content[done..done + n];
    assert Padded(content[done..done + n])[..n] == content[done..done + n];
    assert content[..done] + content[done..done + n] == content[..done + n];
  }

  /** Upload direction: a client that sends and a server that receives get through all rounds, and
      the server is left with the file. */
  lemma {:induction false} PartsGoUp<C, S>(content: seq<byte>, i: nat, c: Program<C>, k: seq<byte> -> Program<S>)
    requires i <= Rounds(Wrap(|content|)) || i == 0
    ensures var size := Wrap(|content|);
      var left := if i <= Rounds(size) then Rounds(size) - i else 0;
      Shakes(SendParts(content, size, i, c), ReceiveParts(size, i, content[..SentBefore(size, i)], k), 2 * left, c, k(Delivered(content)))
    decreases Rounds(Wrap(|content|)) - i
  {
    var size := Wrap(|content|);
    RoundsCover(size, i);
    if i < Rounds(size) {
      OneRound(content, size, i);
      PartsGoUp(content, i + 1, c, k);
    } else if i > 0 {
      RoundsCover(size, i - 1);
      assert SentBefore(size, i) == size;
    }
  }

  /** Download direction: the same with the roles exchanged. */
  lemma {:induction false} PartsGoDown<C, S>(content: seq<byte>, i: nat, k: seq<byte> -> Program<C>, s: Program<S>)
    requires i <= Rounds(Wrap(|content|)) || i == 0
    ensures var size := Wrap(|content|);
      var left := if i <= Rounds(size) then Rounds(size) - i else 0;
      Shakes(ReceiveParts(size, i, content[..SentBefore(size, i)], k), SendParts(content, size, i, s), 2 * left, k(Delivered(content)), s)
    decreases Rounds(Wrap(|content|)) - i
  {
    var size := Wrap(|content|);
    RoundsCover(size, i);
    if i < Rounds(size) {
      OneRound(content, size, i);
      PartsGoDown(content, i + 1, k, s);
    } else if i > 0 {
      RoundsCover(size, i - 1);
      assert SentBefore(size, i) == size;
    }
  }

  /** A transfer rebuilds the file exactly when its length fits an `int`. */
  lemma DeliveredIff(content: seq<byte>)
    ensures Delivered(content) == content <==> |content| <= INT_MAX
  {
    assert |content| > INT_MAX ==> Wrap(|content|) < |content|;
  }

  // ---- The loops themselves ----

  /** The frames the sender writes, in order. */
  function Parts(content: seq<byte>, size: int, n: nat): (parts: seq<Frame>)
    ensures |parts| == n
  {
    seq(n, i requires 0 <= i < n => PartAt(content, size, FRAME_SIZE * i))
  }

  /** The rounds that are made: none unless the size is positive. */
  function RoundsMade(size: int): nat {
    if Rounds(size) > 0 then Rounds(size) else 0
  }

  /** Round `i` of the sender, its bytes counted so far being `sizeSent`. */
  lemma SendRound<S>(content: seq<byte>, size: int, i: nat, next: Program<S>)
    requires i < Rounds(size)
    ensures SentBefore(size, i) + RoundSize(size, SentBefore(size, i)) == SentBefore(size, i + 1)
    ensures var part, p := Part(Padded(Slice(content, SentBefore(size, i), RoundSize(size, SentBefore(size, i))))),
        SendParts(content, size, i, next);
      p.Tell? && p.frame == part && p.next.Hear?
      && (forall f :: p.next.proceed(f) == SendParts(content, size, i + 1, next))
      && Parts(content, size, i) + [part] == Parts(content, size, i + 1)
  {
    RoundsCover(size, i);
    assert SentBefore(size, i) == FRAME_SIZE * i;
  }

  lemma SendRoundsOver<S>(content: seq<byte>, size: int, i: nat, next: Program<S>)
    requires i >= Rounds(size)
    ensures SendParts(content, size, i, next) == next
  {
  }

  /** What the receiver has after `n` frames. */
  function Assembled(size: int, frames: seq<Frame>, n: nat): seq<byte>
    requires n <= |frames|
  {
    if n == 0 then []
    else
      var got := Assembled(size, frames, n - 1);
      got + Bytes(frames[n - 1])[..Clamp(RoundSize(size, |got|))]
  }

  /** Round `i` of the receiver. */
  lemma ReceiveRound<S>(size: int, i: nat, got: seq<byte>, k: seq<byte> -> Program<S>, f: Frame)
    requires i < Rounds(size) && |got| == SentBefore(size, i)
    ensures var kept, p := Bytes(f)[..Clamp(RoundSize(size, |got|))], ReceiveParts(size, i, got, k);
      |got + kept| == SentBefore(size, i + 1) == |got| + RoundSize(size, |got|)
      && p.Hear? && p.proceed(f) == Tell(Num(CP_FILE_PART_RECEIVED), ReceiveParts(size, i + 1, got + kept, k))
  {
    RoundsCover(size, i);
  }

  lemma ReceiveRoundsOver<S>(size: int, i: nat, got: seq<byte>, k: seq<byte> -> Program<S>)
    requires i >= Rounds(size)
    ensures ReceiveParts(size, i, got, k) == k(got)
  {
  }

  /** Round trip: assembling the frames of a file gives the file back, as far as its length is an `int`. */
  lemma {:induction false} PartsAssemble(content: seq<byte>, n: nat, m: nat)
    requires n <= m && (m == 0 || m == Rounds(Wrap(|content|)))
    ensures var size := Wrap(|content|);
      Assembled(size, Parts(content, size, m), n) == content[..SentBefore(size, n)]
      && (n == Rounds(size) || (n == 0 && size <= 0) ==> content[..SentBefore(size, n)] == Delivered(content))
  {
    var size := Wrap(|content|);
    RoundsCover(size, n);
    if n > 0 {
      PartsAssemble(content, n - 1, m);
      RoundsCover(size, n - 1);
      OneRound(content, size, n - 1);
    }
  }
}
