/** One end of a connection as the handlers use it. The ghost field `program` is what the dialogue's
    program still has to do: a handler may only write what it says next, and only reads where it reads. */
module Connections {
  import opened Frames
  import opened Programs
  import opened Transfer

  /** What a read finds once the other side has closed the connection: `SSL_read` returns 0 and the buffer
      stays zeroed. */
  const BLANK := Text("")

  /** The frames that the first `n` reads find. */
  function Reads(input: seq<Frame>, n: nat): (frames: seq<Frame>)
    ensures |frames| == n
    ensures forall i :: 0 <= i < n ==> frames[i] == if i < |input| then input[i] else BLANK
  {
    seq(n, i requires 0 <= i < n => if i < |input| then input[i] else BLANK)
  }

  function Rest(input: seq<Frame>, n: nat): seq<Frame> {
    if n <= |input| then input[n..] else []
  }

  class Connection<S> {
    ghost const start: Program<S>
    const input: seq<Frame>
    var unread: seq<Frame>
    var written: seq<Frame>
    ghost var heard: seq<Frame>
    ghost var program: Program<S>

    /** What was heard is what there was to hear, what was written is what the program says to that, and
        `program` is what comes next. */
    ghost predicate Valid()
      reads this
    {
      && heard == Reads(input, |heard|) && unread == Rest(input, |heard|)
      && Plays(start, heard, written, program)
    }

    /** The connection has gone on from there. */
    ghost predicate Extends(h: seq<Frame>, w: seq<Frame>)
      reads this
    {
      h <= heard && w <= written
    }

    constructor (ghost p: Program<S>, input: seq<Frame>)
      ensures Valid() && start == p == program && this.input == input && heard == [] && written == []
    {
      start, program := p, p;
      this.input, unread, written, heard := input, input, [], [];
    }

    method Write(f: Frame)
      requires Valid() && program.Tell? && program.frame == f
      modifies this
      ensures Valid() && program == old(program).next
      ensures written == old(written) + [f] && heard == old(heard) && unread == old(unread)
    {
      PlaysTell(start, heard, written, program);
      written := written + [f];
      program := program.next;
    }

    method Receive() returns (f: Frame)
      requires Valid() && program.Hear?
      modifies this
      ensures f == if old(unread) == [] then BLANK else old(unread)[0]
      ensures unread == Rest(old(unread), 1)
      ensures Valid() && program == old(program).proceed(f)
      ensures heard == old(heard) + [f] && written == old(written)
    {
      f := BLANK;
      if unread != [] {
        f := unread[0];
        unread := unread[1..];
      }
      PlaysHear(start, heard, written, program, f);
      heard := heard + [f];
      program := program.proceed(f);
    }

    /** The loop of `send_file` over the parts of a file, on either side. */
    method SendContent(content: seq<byte>, ghost next: Program<S>)
      requires Valid() && program == SendParts(content, Wrap(|content|), 0, next)
      modifies this
      ensures Valid() && program == next && Extends(old(heard), old(written))
      ensures written == old(written) + Parts(content, Wrap(|content|), RoundsMade(Wrap(|content|)))
    {
      hide Valid, SendParts, Parts, SentBefore, RoundSize, Rounds, Slice, Wrap;
      var size := Wrap(|content|);
      var i, sizeSent := 0, 0;
      NothingSent(content, size);
      while i < Rounds(size)
        invariant 0 <= i <= RoundsMade(size)
        invariant sizeSent == SentBefore(size, i)
        invariant Valid() && program == SendParts(content, size, i, next)
        invariant old(heard) <= heard && written == old(written) + Parts(content, size, i)
      {
        SendRound(content, size, i, next);
        var sizeToSend := RoundSize(size, sizeSent);
        Write(Part(Padded(Slice(content, sizeSent, sizeToSend))));
        sizeSent := sizeSent + sizeToSend;
        var ack := Receive();
        i := i + 1;
      }
      SendRoundsOver(content, size, i, next);
    }

    /** The loop of `receive_file` and `get_file` over the parts of a file: of each frame, the bytes that
        are file. */
    method ReceiveContent(fileSize: int, ghost k: seq<byte> -> Program<S>) returns (content: seq<byte>)
      requires Valid() && program == ReceiveParts(fileSize, 0, [], k)
      modifies this
      ensures Valid() && program == k(content) && Extends(old(heard), old(written))
      ensures |heard| == |old(heard)| + RoundsMade(fileSize)
      ensures content == Assembled(fileSize, heard[|old(heard)|..], RoundsMade(fileSize))
    {
      hide Valid, ReceiveParts, SentBefore, RoundSize, Rounds, Clamp, Bytes;
      var i, sizeReceived := 0, 0;
      content := [];
      NothingSent([], fileSize);
      while i < Rounds(fileSize)
        invariant 0 <= i <= RoundsMade(fileSize)
        invariant sizeReceived == |content| == SentBefore(fileSize, i)
        invariant Valid() && program == ReceiveParts(fileSize, i, content, k)
        invariant old(heard) <= heard && old(written) <= written && |heard| == |old(heard)| + i
        invariant content == Assembled(fileSize, heard[|old(heard)|..], i)
      {
        ghost var before := heard[|old(heard)|..];
        PartHeard(fileSize, i, content, k);
        var sizeToReceive := RoundSize(fileSize, sizeReceived);
        var part := Receive();
        ReceiveRound(fileSize, i, content, k, part);
        AssembledOn(fileSize, before, part, i);
        assert heard[|old(heard)|..] == before + [part];
        content := content + Bytes(part)[..Clamp(sizeToReceive)];
        Write(Num(CP_FILE_PART_RECEIVED));
        sizeReceived := sizeReceived + sizeToReceive;
        i := i + 1;
      }
      ReceiveRoundsOver(fileSize, i, content, k);
    }
  }

  lemma NothingSent(content: seq<byte>, size: int)
    ensures SentBefore(size, 0) == 0 && Parts(content, size, 0) == []
  {
  }

  lemma PartHeard<S>(size: int, i: nat, got: seq<byte>, k: seq<byte> -> Program<S>)
    requires i < Rounds(size)
    ensures ReceiveParts(size, i, got, k).Hear?
  {
  }

  lemma {:induction false} AssembledOn(size: int, frames: seq<Frame>, f: Frame, n: nat)
    requires n <= |frames|
    ensures Assembled(size, frames + [f], n) == Assembled(size, frames, n)
  {
    if n > 0 { AssembledOn(size, frames, f, n - 1); }
  }
}
