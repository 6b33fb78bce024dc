/** The file transfers of an FTP client in src/ftpvita.c: REST, RETR, STOR and APPE. */
module Transfer {
  import opened Common

  const TWO31: int := 0x8000_0000
  const TWO32: int := 0x1_0000_0000

  /** A data connection that the client writes to: what each receive call returned, and whether the
      client then closed it (0) or it was aborted (an error). */
  datatype Stream = Stream(chunks: seq<seq<Byte>>, closed: bool)

  function Concat(chunks: seq<seq<Byte>>): seq<Byte> {
    if chunks == [] then [] else Concat(chunks[..|chunks| - 1]) + chunks[|chunks| - 1]
  }

  type Files = map<string, seq<Byte>>

  /** What "%d" leaves in the unsigned 32-bit field, as a signed number: the number of the command, and
      anything for one that is out of range. */
  type Int32 = n: int | -TWO31 <= n < TWO31

  datatype Command =
    | Rest(n: Option<Int32>)
    | Retr(path: string)
    | Stor(path: string, stream: Stream, opens: bool)
    | Appe(path: string, stream: Stream, opens: bool)

  datatype State = State(restore: nat, files: Files)

  // ----- What the commands mean -----

  function Content(files: Files, path: string): seq<Byte> {
    if path in files then files[path] else []
  }

  /** Where reading starts: sceIoLseek32 refuses an offset that is negative as a signed number, and
      the position stays at the start. */
  function Offset(restore: nat): nat {
    if restore < TWO31 then restore else 0
  }

  function Suffix(data: seq<Byte>, n: nat): seq<Byte> {
    if n <= |data| then data[n..] else []
  }

  /** receive_file: a restore point of 0 replaces the file, any other appends; an aborted transfer
      removes the file, whatever it held before. */
  function Received(s: State, path: string, stream: Stream, opens: bool): State {
    if !opens then s
    else if !stream.closed then State(0, s.files - {path})
    else State(0, s.files[path := (if s.restore == 0 then [] else Content(s.files, path)) + Concat(stream.chunks)])
  }

  /** The state after a command, and what it sent over the data connection. */
  function Do(s: State, command: Command): (State, seq<Byte>) {
    match command
    case Rest(n) => (if n.None? then s else s.(restore := if n.value < 0 then n.value + TWO32 else n.value), [])
    case Retr(path) =>
      if path !in s.files then (s, []) else (s.(restore := 0), Suffix(s.files[path], Offset(s.restore)))
    case Stor(path, stream, opens) => (Received(s, path, stream, opens), [])
    case Appe(path, stream, opens) => (Received(s.(restore := TWO32 - 1), path, stream, opens), [])
  }

  class Client {
    var restore_point: nat
    var files: Files
    const file_buf_size: nat

    ghost predicate Valid() reads this { restore_point < TWO32 && file_buf_size > 0 }

    ghost function Value(): State reads this { State(restore_point, files) }

    /** client_list_add sets the restore point of a new client. */
    constructor (files: Files, size: nat)
      requires size > 0
      ensures Valid() && Value() == State(0, files)
    {
      restore_point, this.files, file_buf_size := 0, files, size;
    }

    method REST(n: Option<Int32>)
      requires Valid()
      modifies this
      ensures Valid() && Value() == Do(old(Value()), Rest(n)).0
    {
      if n.Some? {
        restore_point := if n.value < 0 then n.value + TWO32 else n.value;
      }
    }

    method RETR(path: string) returns (sent: seq<Byte>)
      requires Valid()
      modifies this
      ensures Valid() && (Value(), sent) == Do(old(Value()), Retr(path))
    {
      sent := SendFile(path);
    }

    /** send_file. However the device cuts the file into reads, all of it from the start is sent. */
    method SendFile(path: string) returns (sent: seq<Byte>)
      requires Valid()
      modifies this
      ensures Valid() && (Value(), sent) == Do(old(Value()), Retr(path))
    {
      sent := [];
      if path !in files { return; }
      var data, pos := files[path], 0;
      if restore_point < TWO31 { pos := restore_point; }
      ghost var start := pos;
      while true
        invariant Value() == old(Value()) && start <= pos && start == Offset(restore_point)
        invariant if start <= |data| then pos <= |data| && sent == data[start..pos] else pos == start && sent == []
        decreases |data| - pos
      {
        var bytes_read := ReadSome(|data|, pos);
        if bytes_read == 0 { break; }
        sent := sent + data[pos..pos + bytes_read];
        pos := pos + bytes_read;
      }
      assert start <= |data| ==> data[start..pos] == data[start..];
      restore_point := 0;
    }

    /** sceIoRead: at most a buffer, and nothing only at the end. */
    method ReadSome(size: nat, pos: nat) returns (n: nat)
      requires Valid()
      ensures n <= file_buf_size && (n == 0 <==> pos >= size) && (n > 0 ==> pos + n <= size)
    {
      if pos >= size { return 0; }
      n := *;
      if !(0 < n <= file_buf_size && pos + n <= size) { n := 1; }
    }

    method STOR(path: string, stream: Stream, opens: bool)
      requires Valid()
      modifies this
      ensures Valid() && Value() == Do(old(Value()), Stor(path, stream, opens)).0
    {
      ReceiveFile(path, stream, opens);
    }

    method APPE(path: string, stream: Stream, opens: bool)
      requires Valid()
      modifies this
      ensures Valid() && Value() == Do(old(Value()), Appe(path, stream, opens)).0
    {
      restore_point := 0xFFFF_FFFF;
      ReceiveFile(path, stream, opens);
    }

    method ReceiveFile(path: string, stream: Stream, opens: bool)
      requires Valid()
      modifies this
      ensures Valid() && Value() == Received(old(Value()), path, stream, opens)
    {
      if !opens { return; }
      ghost var before := files;
      Open(path);
      ghost var head := files[path];
      WriteAll(path, stream.chunks);
      Overwritten(before, path, head, head + Concat(stream.chunks));
      restore_point := 0;
      if !stream.closed {
        files := files - {path};
      }
    }

    /** Its sceIoOpen, which creates the file and truncates it unless a transfer is resumed. */
    method Open(path: string)
      modifies this`files
      ensures files == old(files)[path := if restore_point == 0 then [] else Content(old(files), path)]
    {
      if restore_point != 0 {
        files := files[path := if path in files then files[path] else []];
      } else {
        files := files[path := []];
      }
    }

    /** Its loop, over what each receive call returned. */
    method WriteAll(path: string, chunks: seq<seq<Byte>>)
      requires path in files
      modifies this`files
      ensures files == old(files)[path := old(files)[path] + Concat(chunks)]
    {
      ghost var head := files[path];
      var i := 0;
      while i < |chunks|
        invariant 0 <= i <= |chunks| && path in files
        invariant files[path] == head + Concat(chunks[..i])
        invariant files - {path} == old(files) - {path}
      {
        Concatenated(head, chunks, i);
        ghost var before := files;
        files := files[path := files[path] + chunks[i]];
        assert files - {path} == before - {path};
        i := i + 1;
      }
      assert chunks[..i] == chunks;
      SameBut(old(files), files, path);
    }
  }

  lemma {:induction false} Concatenated(head: seq<Byte>, chunks: seq<seq<Byte>>, i: nat)
    requires i < |chunks|
    ensures head + Concat(chunks[..i]) + chunks[i] == head + Concat(chunks[..i + 1])
  {
    assert chunks[..i + 1][..i] == chunks[..i];
  }

  lemma {:induction false} SameBut(files: Files, files': Files, path: string)
    requires files - {path} == files' - {path} && path in files'
    ensures files' == files[path := files'[path]]
  {
    forall p | p != path ensures (p in files <==> p in files') && (p in files ==> files[p] == files'[p]) {
      assert p in files - {path} <==> p in files' - {path};
      assert p in files ==> (files - {path})[p] == (files' - {path})[p];
    }
  }

  // ----- Whole runs -----

  function Run(s: State, commands: seq<Command>): State {
    if commands == [] then s else Do(Run(s, commands[..|commands| - 1]), commands[|commands| - 1]).0
  }

  /** The command is a transfer whose file could be opened. */
  predicate Completes(s: State, command: Command) {
    match command
    case Rest(_) => false
    case Retr(path) => path in s.files
    case Stor(_, _, opens) => opens
    case Appe(_, _, opens) => opens
  }

  /** The restore point that the command leaves behind, if it sets one and does not reset it: REST with
      a number, and APPE when its file cannot be opened. */
  function Leaves(command: Command): Option<nat> {
    match command
    case Rest(Some(n)) => Some(if n < 0 then n + TWO32 else n)
    case Appe(_, _, false) => Some(TWO32 - 1)
    case _ => None
  }

  /** Command `k` is the last that left a restore point, and no transfer completed after it. */
  ghost predicate LastLeaves(s: State, commands: seq<Command>, k: int) {
    && 0 <= k < |commands| && Leaves(commands[k]).Some?
    && forall j :: k < j < |commands| ==> Leaves(commands[j]).None? && !Completes(Run(s, commands[..j]), commands[j])
  }

  ghost predicate Pending(s: State, commands: seq<Command>) {
    exists k :: LastLeaves(s, commands, k) && Leaves(commands[k]).value != 0
  }

  lemma {:induction false} OneCommand(s: State, command: Command)
    ensures Do(s, command).0.restore ==
      if Completes(s, command) then 0 else if Leaves(command).Some? then Leaves(command).value else s.restore
    ensures !(Completes(s, command) && Leaves(command).Some?)
  {
  }

  lemma {:induction false} LastLeavesStep(s: State, commands: seq<Command>, last: Command, k: int)
    ensures LastLeaves(s, commands + [last], k) <==>
      if Leaves(last).Some? then k == |commands| else LastLeaves(s, commands, k) && !Completes(Run(s, commands), last)
  {
    var more := commands + [last];
    assert forall j :: 0 <= j < |commands| ==> more[j] == commands[j] && more[..j] == commands[..j];
    assert more[|commands|] == last && more[..|commands|] == commands;
  }

  /** In every run from a new session: the restore point is what the last command that left one left,
      if no transfer completed after it, and otherwise 0. */
  lemma {:induction false} RestorePoint(s: State, commands: seq<Command>)
    requires s.restore == 0
    ensures forall k :: LastLeaves(s, commands, k) ==> Run(s, commands).restore == Leaves(commands[k]).value
    ensures Run(s, commands).restore != 0 <==> Pending(s, commands)
  {
    if commands != [] {
      var front, last := commands[..|commands| - 1], commands[|commands| - 1];
      RestorePoint(s, front);
      assert commands == front + [last];
      RestorePointStep(s, front, last);
    }
  }

  lemma {:induction false} RestorePointStep(s: State, front: seq<Command>, last: Command)
    requires forall k :: LastLeaves(s, front, k) ==> Run(s, front).restore == Leaves(front[k]).value
    requires Run(s, front).restore != 0 <==> Pending(s, front)
    ensures var commands := front + [last];
      && (forall k :: LastLeaves(s, commands, k) ==> Run(s, commands).restore == Leaves(commands[k]).value)
      && (Run(s, commands).restore != 0 <==> Pending(s, commands))
  {
    var commands := front + [last];
    OneCommand(Run(s, front), last);
    assert commands[..|front|] == front && commands[|front|] == last;
    forall k ensures LastLeaves(s, commands, k) <==>
      if Leaves(last).Some? then k == |front| else LastLeaves(s, front, k) && !Completes(Run(s, front), last)
    {
      LastLeavesStep(s, front, last, k);
    }
    if Leaves(last).Some? {
      assert LastLeaves(s, commands, |front|);
    } else if !Completes(Run(s, front), last) && Pending(s, front) {
      var k :| LastLeaves(s, front, k) && Leaves(front[k]).value != 0;
      assert LastLeaves(s, commands, k) && commands[k] == front[k];
    }
    assert forall k :: 0 <= k < |front| ==> commands[k] == front[k];
  }

  /** Such a run: a REST alone, in a session with any files. */
  lemma {:induction false} RestStaysPending(files: Files, n: Int32)
    requires n != 0
    ensures Pending(State(0, files), [Rest(Some(n))])
    ensures Run(State(0, files), [Rest(Some(n))]).restore != 0
  {
    var commands := [Rest(Some(n))];
    assert LastLeaves(State(0, files), commands, 0) && Leaves(commands[0]).value != 0;
    RestorePoint(State(0, files), commands);
  }

  /** So a STOR after a run keeps what the file held exactly if a restore point is pending, whichever
      file it was meant for. */
  lemma {:induction false} StorAfterRun(s: State, commands: seq<Command>, path: string, stream: Stream)
    requires s.restore == 0 && stream.closed
    ensures var before := Run(s, commands);
      Do(before, Stor(path, stream, true)).0
      == (var kept := if Pending(s, commands) then Content(before.files, path) else [];
          State(0, before.files[path := kept + Concat(stream.chunks)]))
  {
    RestorePoint(s, commands);
  }

  /** A command touches at most the file that it names. */
  lemma {:induction false} OtherFilesKept(s: State, command: Command)
    ensures command.Rest? || command.Retr? ==> Do(s, command).0.files == s.files
    ensures command.Stor? || command.Appe? ==> Do(s, command).0.files - {command.path} == s.files - {command.path}
  {
    if command.Stor? || command.Appe? {
      assert Do(s, command).0.files - {command.path} == s.files - {command.path};
    }
  }

  // ----- Resuming a download -----

  /** What RETR sends after a REST that leaves `m` in the field. Every value of the field is left by one
      such `m`, whatever sscanf makes of a number out of range. */
  function SentAfter(s: State, path: string, m: Int32): seq<Byte> {
    Do(Do(s, Rest(Some(m))).0, Retr(path)).1
  }

  /** The first `n` bytes and what is then sent are the whole file exactly if `m` is `n`, both are at or
      past the end, or `n` is 0 and `m` is negative. */
  lemma {:induction false} ResumesExactly(s: State, path: string, n: nat, m: Int32)
    requires path in s.files && n <= |s.files[path]|
    ensures s.files[path][..n] + SentAfter(s, path, m) == s.files[path] <==>
            m == n || (m < 0 && n == 0) || n == |s.files[path]| <= m
    ensures Do(Do(s, Rest(Some(m))).0, Retr(path)).0 == State(0, s.files)
  {
    var data, sent, start := s.files[path], SentAfter(s, path, m), if m < 0 then 0 else m;
    assert sent == Suffix(data, start);
    if start == n { assert data[..n] + data[n..] == data; }
    assert |data[..n] + sent| == n + |sent|;
  }

  /** So a download can be resumed at `n`, by REST n, exactly if `n` is below 2^31. */
  lemma {:induction false} ResumedDownload(s: State, path: string, n: nat)
    requires path in s.files && n <= |s.files[path]|
    ensures n < TWO31 <==> exists m: Int32 :: s.files[path][..n] + SentAfter(s, path, m) == s.files[path]
    ensures n < TWO31 ==> s.files[path][..n] + SentAfter(s, path, n) == s.files[path]
  {
    if n < TWO31 {
      ResumesExactly(s, path, n, n);
    } else {
      forall m: Int32 ensures s.files[path][..n] + SentAfter(s, path, m) != s.files[path] {
        ResumesExactly(s, path, n, m);
      }
    }
  }

  /** What sscanf leaves of the number that a REST names: the number, where it fits. */
  ghost predicate Scans(scan: nat -> Int32) {
    forall n: nat :: n < TWO31 ==> scan(n) == n
  }

  /** What a client has after downloads that break off, each resumed at the length of what it had before:
      of what is sent, the k-th time, it receives the first cuts[k] bytes. */
  function Downloaded(s: State, path: string, cuts: seq<nat>, scan: nat -> Int32): seq<Byte> {
    if cuts == [] then []
    else
      var got := Downloaded(s, path, cuts[..|cuts| - 1], scan);
      var sent := SentAfter(s, path, scan(|got|));
      got + if cuts[|cuts| - 1] <= |sent| then sent[..cuts[|cuts| - 1]] else sent
  }

  /** Every part is resumed below 2^31. */
  ghost predicate InReach(size: nat, cuts: seq<nat>) {
    size < TWO31 || forall k :: 0 <= k < |cuts| ==> Sum(cuts[..k]) < TWO31
  }

  lemma {:induction false} InReachFront(size: nat, cuts: seq<nat>)
    requires cuts != []
    ensures var front := cuts[..|cuts| - 1];
      InReach(size, cuts) <==> InReach(size, front) && (size < TWO31 || Sum(front) < TWO31)
  {
    var front := cuts[..|cuts| - 1];
    assert forall k :: 0 <= k < |front| ==> front[..k] == cuts[..k];
  }

  /** Then the parts are a prefix of the file, and the file as soon as they reach its size. */
  lemma {:induction false} DownloadInParts(s: State, path: string, cuts: seq<nat>, scan: nat -> Int32)
    requires path in s.files && Scans(scan) && InReach(|s.files[path]|, cuts)
    ensures var data, got := s.files[path], Downloaded(s, path, cuts, scan);
      && got <= data && |got| == (if Sum(cuts) <= |data| then Sum(cuts) else |data|)
      && (got == data <==> Sum(cuts) >= |data|)
  {
    var data := s.files[path];
    if cuts != [] {
      var front := cuts[..|cuts| - 1];
      InReachFront(|data|, cuts);
      DownloadInParts(s, path, front, scan);
      var got := Downloaded(s, path, front, scan);
      assert SentAfter(s, path, scan(|got|)) == data[|got|..];
    }
  }

  lemma {:induction false} FarStaysFar(s: State, path: string, cuts: seq<nat>, scan: nat -> Int32)
    requires path in s.files && Scans(scan) && |s.files[path]| >= TWO31 && Sum(cuts) >= TWO31
    ensures |Downloaded(s, path, cuts, scan)| >= TWO31
  {
    var front := cuts[..|cuts| - 1];
    if Sum(front) >= TWO31 {
      FarStaysFar(s, path, front, scan);
    } else {
      SumsBelow(cuts);
      DownloadInParts(s, path, cuts, scan);
    }
  }

  lemma {:induction false} SumsBelow(cuts: seq<nat>)
    ensures forall k :: 0 <= k < |cuts| ==> Sum(cuts[..k]) <= Sum(cuts[..|cuts| - 1])
  {
    if cuts != [] {
      var front := cuts[..|cuts| - 1];
      SumsBelow(front);
      forall k | 0 <= k < |cuts| ensures Sum(cuts[..k]) <= Sum(front) {
        if k < |front| { assert cuts[..k] == front[..k]; }
      }
    }
  }

  /** Of downloads whose last part is not broken off, exactly those give the file whose every part was
      resumed below 2^31. */
  lemma {:induction false} DownloadsExactly(s: State, path: string, cuts: seq<nat>, scan: nat -> Int32)
    requires path in s.files && Scans(scan) && cuts != [] && cuts[|cuts| - 1] >= |s.files[path]|
    ensures Downloaded(s, path, cuts, scan) == s.files[path] <==> InReach(|s.files[path]|, cuts)
  {
    var data, front := s.files[path], cuts[..|cuts| - 1];
    if InReach(|data|, cuts) {
      DownloadInParts(s, path, cuts, scan);
    } else {
      SumsBelow(cuts);
      FarStaysFar(s, path, front, scan);
      var got := Downloaded(s, path, front, scan);
      assert |SentAfter(s, path, scan(|got|))| > |data| - TWO31;
    }
  }

  function Sum(cuts: seq<nat>): nat {
    if cuts == [] then 0 else Sum(cuts[..|cuts| - 1]) + cuts[|cuts| - 1]
  }

  /** How a later part of an upload is sent: by APPE, or by REST with a number and STOR. */
  datatype Part = ByAppend(stream: Stream) | ByRest(n: Int32, stream: Stream)

  function PartCommands(path: string, part: Part): seq<Command> {
    match part
    case ByAppend(stream) => [Appe(path, stream, true)]
    case ByRest(n, stream) => [Rest(Some(n)), Stor(path, stream, true)]
  }

  function Upload(path: string, first: Stream, parts: seq<Part>): seq<Command> {
    if parts == [] then [Stor(path, first, true)]
    else Upload(path, first, parts[..|parts| - 1]) + PartCommands(path, parts[|parts| - 1])
  }

  function AllBytes(first: Stream, parts: seq<Part>): seq<Byte> {
    if parts == [] then Concat(first.chunks)
    else AllBytes(first, parts[..|parts| - 1]) + Concat(parts[|parts| - 1].stream.chunks)
  }

  lemma {:induction false} RunAppends(s: State, commands: seq<Command>, more: seq<Command>)
    ensures Run(s, commands + more) == Run(Run(s, commands), more)
  {
    if more == [] {
      assert commands + more == commands;
    } else {
      var front, last := more[..|more| - 1], more[|more| - 1];
      RunAppends(s, commands, front);
      assert (commands + more)[..|commands + more| - 1] == commands + front;
    }
  }

  lemma {:induction false} OnePart(s: State, path: string, part: Part)
    requires s.restore == 0 && path in s.files && part.stream.closed && (part.ByRest? ==> part.n != 0)
    ensures Run(s, PartCommands(path, part)) == State(0, s.files[path := s.files[path] + Concat(part.stream.chunks)])
  {
    var commands := PartCommands(path, part);
    assert Run(s, []) == s;
    assert commands[..0] == [];
    if part.ByRest? {
      assert commands[..1] == [commands[0]] && commands[..1][..0] == [];
      assert Run(s, commands[..1]) == Do(s, commands[0]).0;
    }
  }

  /** An upload in any number of completed parts, however each was cut into chunks, leaves exactly
      all bytes in order, and every other file as it was. */
  lemma {:induction false} UploadInParts(s: State, path: string, first: Stream, parts: seq<Part>)
    requires s.restore == 0 && first.closed
    requires forall k :: 0 <= k < |parts| ==> parts[k].stream.closed && (parts[k].ByRest? ==> parts[k].n != 0)
    ensures Run(s, Upload(path, first, parts)) == State(0, s.files[path := AllBytes(first, parts)])
  {
    if parts == [] {
      assert Upload(path, first, parts)[..0] == [];
      assert Run(s, Upload(path, first, parts)) == Do(s, Stor(path, first, true)).0;
      assert [] + Concat(first.chunks) == Concat(first.chunks);
    } else {
      var front, last := parts[..|parts| - 1], parts[|parts| - 1];
      assert forall k :: 0 <= k < |front| ==> front[k] == parts[k];
      UploadInParts(s, path, first, front);
      RunAppends(s, Upload(path, first, front), PartCommands(path, last));
      OnePart(State(0, s.files[path := AllBytes(first, front)]), path, last);
      Overwritten(s.files, path, AllBytes(first, front), AllBytes(first, parts));
    }
  }

  lemma {:induction false} Overwritten(files: Files, path: string, data: seq<Byte>, data': seq<Byte>)
    ensures files[path := data][path := data'] == files[path := data']
    ensures files[path := data'] - {path} == files - {path}
  {
  }

  /** Without a restore point the second part replaces the first, and an aborted part of whichever
      kind leaves no file at all. */
  lemma {:induction false} PartsThatLose(s: State, path: string, stream: Stream)
    ensures stream.closed && s.restore == 0 ==>
            Do(s, Stor(path, stream, true)).0.files == s.files[path := Concat(stream.chunks)]
    ensures !stream.closed ==>
            path !in Do(s, Appe(path, stream, true)).0.files && path !in Do(s, Stor(path, stream, true)).0.files
  {
    assert [] + Concat(stream.chunks) == Concat(stream.chunks);
  }
}
