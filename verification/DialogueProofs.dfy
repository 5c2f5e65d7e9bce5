/** Client and server programs against each other, one command at a time: each dialogue runs to
    its end, exchange by exchange, and this is what it leaves behind. */
module DialogueProofs {
  import opened Frames
  import opened Programs
  import opened FileTable
  import opened UserRecord
  import opened Transfer
  import opened Codes
  import opened S = ServerPrograms
  import opened C = ClientPrograms

  lemma Next(c0: ClientProgram, s0: ServerProgram, n: nat, c: ClientProgram, s: ServerProgram)
      returns (c': ClientProgram, s': ServerProgram)
    requires Shakes(c0, s0, n, c, s) && Shake(c, s).Some?
    ensures Shake(c, s) == Some((c', s')) && Shakes(c0, s0, n + 1, c', s')
  {
    c', s' := Shake(c, s).value.0, Shake(c, s).value.1;
    assert Shakes(c', s', 0, c', s');
    assert Shakes(c, s, 1, c', s');
    ShakesOn(c0, s0, n, c, s, 1, c', s');
  }

  /** Where the server reads the code of a command or the answer of a sync round. */
  ghost predicate Answers(h: ServerProgram, code: int, then_: ServerProgram) {
    h.Hear? && h.forward(Num(code)) == Some(Num(code)) && h.proceed(Num(code)) == then_
  }

  function UploadEnd(mtime: int, next: ClientProgram): ClientProgram {
    Tell(Num(CP_SEND_FILE_COMPLETE), AwaitCode(CP_SEND_FILE_COMPLETE_ACK, Tell(Stamp(mtime), next), next))
  }

  lemma UploadEnds(mtime: int, next: ClientProgram, st: Store, path: string, size: int, k: Store -> ServerProgram,
        content: seq<byte>)
    ensures Shakes(UploadEnd(mtime, next), S.AfterParts(st, path, size, k)(content), 3, next, k(Uploaded(st, path, content, mtime, size)))
  {
    var c0, s0 := UploadEnd(mtime, next), S.AfterParts(st, path, size, k)(content);
    assert s0.Hear? && s0.forward(Num(CP_SEND_FILE_COMPLETE)) == Some(Num(CP_SEND_FILE_COMPLETE));
    var c, s := Next(c0, s0, 0, c0, s0);
    c, s := Next(c0, s0, 1, c, s);
    assert s.Hear? && s.proceed(Stamp(mtime)) == k(Uploaded(st, path, content, AsTime(Stamp(mtime)), size));
    c, s := Next(c0, s0, 2, c, s);
  }

  /** Upload: the server is left with the file, under its base name. */
  lemma UploadRuns(path: string, file: LocalFile, next: ClientProgram, st: Store, h: ServerProgram,
        k: Store -> ServerProgram)
      returns (n: nat)
    requires !LongName(path) && Answers(h, CP_CLIENT_SEND_FILE, TakeUpload(st, k))
    ensures Shakes(C.SendFile(path, Some(file), next), h, n, next,
      k(Uploaded(st, Base(path), Delivered(file.content), file.mtime, Wrap(|file.content|))))
  {
    var size := Wrap(|file.content|);
    var after, server := UploadEnd(file.mtime, next), S.AfterParts(st, Base(path), size, k);
    var c0 := C.SendFile(path, Some(file), next);
    var c, s := Next(c0, h, 0, c0, h);
    c, s := Next(c0, h, 1, c, s);
    c, s := Next(c0, h, 2, c, s);
    c, s := Next(c0, h, 3, c, s);
    c, s := Next(c0, h, 4, c, s);
    assert c == SendParts(file.content, size, 0, after) && s == ReceiveParts(size, 0, [], server);
    n := PartsAndEnd(c0, h, 5, file, next, st, Base(path), k);
  }

  lemma PartsAndEnd(c0: ClientProgram, s0: ServerProgram, n: nat, file: LocalFile, next: ClientProgram,
                    st: Store, path: string, k: Store -> ServerProgram) returns (m: nat)
    requires var size := Wrap(|file.content|);
      Shakes(c0, s0, n, SendParts(file.content, size, 0, UploadEnd(file.mtime, next)),
        ReceiveParts(size, 0, [], S.AfterParts(st, path, size, k)))
    ensures Shakes(c0, s0, m, next, k(Uploaded(st, path, Delivered(file.content), file.mtime, Wrap(|file.content|))))
  {
    var size := Wrap(|file.content|);
    var after, server := UploadEnd(file.mtime, next), S.AfterParts(st, path, size, k);
    PartsGoUp(file.content, 0, after, server);
    assert file.content[..0] == [];
    var rounds := if Rounds(size) > 0 then 2 * Rounds(size) else 0;
    ShakesOn(c0, s0, n, SendParts(file.content, size, 0, after), ReceiveParts(size, 0, [], server), rounds, after,
      server(Delivered(file.content)));
    UploadEnds(file.mtime, next, st, path, size, k, Delivered(file.content));
    m := n + rounds + 3;
    ShakesOn(c0, s0, n + rounds, after, server(Delivered(file.content)), 3, next,
      k(Uploaded(st, path, Delivered(file.content), file.mtime, size)));
  }

  // ---- Download ----

  function DownloadEnd(st: Store, k: Store -> ServerProgram): ServerProgram {
    Tell(Num(CP_SEND_FILE_COMPLETE), Expect(CP_SEND_FILE_COMPLETE_ACK, k(st), k(st)))
  }

  lemma DownloadEnds(content: seq<byte>, k: Option<seq<byte>> -> ClientProgram, st: Store, l: Store -> ServerProgram)
    ensures Shakes(C.AfterParts(k)(content), DownloadEnd(st, l), 2, k(Some(content)), l(st))
  {
    var c0, s0 := C.AfterParts(k)(content), DownloadEnd(st, l);
    assert c0.Hear? && c0.proceed(Num(CP_SEND_FILE_COMPLETE)) == Tell(Num(CP_SEND_FILE_COMPLETE_ACK), k(Some(content)));
    var c, s := Next(c0, s0, 0, c0, s0);
    c, s := Next(c0, s0, 1, c, s);
  }

  /** Download of a file that is on the server's disk: the client is left with it, the server as it was. */
  lemma DownloadRuns(path: string, k: Option<seq<byte>> -> ClientProgram, st: Store, h: ServerProgram,
        l: Store -> ServerProgram)
      returns (n: nat)
    requires !LongName(path) && Answers(h, CP_CLIENT_GET_FILE, GiveDownload(st, l)) && Base(path) in st.disk
    ensures Shakes(GetFile(path, k), h, n, k(Some(Delivered(st.disk[Base(path)]))), l(st))
  {
    var content := st.disk[Base(path)];
    var c0 := GetFile(path, k);
    var c, s := DownloadStarts(path, k, st, h, l);
    c, s := Next(c0, h, 4, c, s);
    c, s := Next(c0, h, 5, c, s);
    var size := Wrap(|content|);
    assert c == ReceiveParts(size, 0, [], C.AfterParts(k)) && s == SendParts(content, size, 0, DownloadEnd(st, l));
    n := PartsAndDownloadEnd(c0, h, 6, content, k, st, l);
  }

  lemma PartsAndDownloadEnd(c0: ClientProgram, s0: ServerProgram, n: nat, content: seq<byte>,
        k: Option<seq<byte>> -> ClientProgram,
                            st: Store, l: Store -> ServerProgram) returns (m: nat)
    requires var size := Wrap(|content|);
      Shakes(c0, s0, n, ReceiveParts(size, 0, [], C.AfterParts(k)), SendParts(content, size, 0, DownloadEnd(st, l)))
    ensures Shakes(c0, s0, m, k(Some(Delivered(content))), l(st))
  {
    var size := Wrap(|content|);
    PartsGoDown(content, 0, C.AfterParts(k), DownloadEnd(st, l));
    assert content[..0] == [];
    var rounds := if Rounds(size) > 0 then 2 * Rounds(size) else 0;
    var after := C.AfterParts(k)(Delivered(content));
    ShakesOn(c0, s0, n, ReceiveParts(size, 0, [], C.AfterParts(k)), SendParts(content, size, 0, DownloadEnd(st, l)),
      rounds, after, DownloadEnd(st, l));
    DownloadEnds(Delivered(content), k, st, l);
    m := n + rounds + 2;
    ShakesOn(c0, s0, n + rounds, after, DownloadEnd(st, l), 2, k(Some(Delivered(content))), l(st));
  }

  /** What the client waits for once the file was announced. */
  function AwaitSize(k: Option<seq<byte>> -> ClientProgram): ClientProgram {
    Await(size => Tell(Num(CP_CLIENT_GET_FILE_SIZE_ACK), ReceiveParts(AsInt(size), 0, [], C.AfterParts(k))))
  }

  lemma DownloadStarts(path: string, k: Option<seq<byte>> -> ClientProgram, st: Store, h: ServerProgram,
        l: Store -> ServerProgram)
      returns (c: ClientProgram, s: ServerProgram)
    requires !LongName(path) && Answers(h, CP_CLIENT_GET_FILE, GiveDownload(st, l))
    ensures Shakes(GetFile(path, k), h, 4, c, s) && c.Hear?
    ensures forall f :: c.proceed(f) == AwaitSize(k).proceed(f)
    ensures s == S.SendFile(st, Base(path), l).next
  {
    var c0 := GetFile(path, k);
    c, s := Next(c0, h, 0, c0, h);
    c, s := Next(c0, h, 1, c, s);
    c, s := Next(c0, h, 2, c, s);
    c, s := Next(c0, h, 3, c, s);
  }
}
