/** ReadMeta inverts the metadata writers for every version, and never looks past what it consumes. */
module ArchiveProofs {
  import opened Bytes
  import opened Lz4Codec
  import opened BlockStream
  import opened ProcFiles
  import opened Archive
  import W = WriterState

  // ---------------------------------------------------------------- one stream after another

  lemma {:induction false} HistoryEnds(dict: seq<byte>, items: seq<Item>, history: seq<byte>)
    requires EndsWith(history, dict)
    ensures EndsWith(history + History(items), DictAfter(dict, items))
    decreases items
  {
    hide EndsWith;
    if items == [] {
      NoHistory(history);
    } else if items[0].Raw? {
      HistoryEnds(dict, items[1..], history);
      assert History(items) == [] + History(items[1..]) == History(items[1..]);
    } else {
      var p := items[0].payload;
      Appending(history, p);
      HistoryEnds(p, items[1..], history + p);
      W.BlockHead(items, history);
    }
  }

  lemma Appending(history: seq<byte>, p: seq<byte>)
    ensures EndsWith(history + p, p)
  {}

  /** The cursor in front of `items`, and the one behind them. */
  function Before(f: Format, dict: seq<byte>, items: seq<Item>, tail: seq<byte>, history: seq<byte>): Cursor {
    Cursor(StreamBytes(f, dict, items) + tail, history)
  }

  lemma Split(f: Format, dict: seq<byte>, a: seq<Item>, b: seq<Item>, tail: seq<byte>, history: seq<byte>)
    requires EndsWith(history, dict)
    ensures Before(f, dict, a + b, tail, history)
      == Before(f, dict, a, StreamBytes(f, DictAfter(dict, a), b) + tail, history)
    ensures DictAfter(dict, a + b) == DictAfter(DictAfter(dict, a), b)
    ensures EndsWith(history + History(a), DictAfter(dict, a))
    ensures history + History(a + b) == history + History(a) + History(b)
  {
    hide StreamBytes, DictAfter, History, EndsWith;
    StreamBytesConcat(f, dict, a, b);
    HistoryConcat(a, b);
    HistoryEnds(dict, a, history);
  }

  lemma FirstBlockWritten(f: Format, dict: seq<byte>, t: nat, payload: seq<byte>, tail: seq<byte>, history: seq<byte>)
    requires f.codec.Lawful() && EndsWith(history, dict) && t < TYPE_MAX && 1 <= |payload| <= BLOCK_SIZE
    ensures ReadFirstBlock(f, Before(f, dict, [Block(0, t, payload)], tail, history), t)
         == Some((payload, Cursor(tail, history + payload)))
    ensures History([Block(0, t, payload)]) == payload && DictAfter(dict, [Block(0, t, payload)]) == payload
  {
    hide StreamBytes, ItemBytes, ReadBlock, EndsWith, Codec.Lawful, HeaderOf;
    var items := [Block(0, t, payload)];
    assert items[1..] == [];
    W.StreamHead(f, dict, items, tail);
    NoItems(f, payload, tail);
    ReadWritten(f, dict, items[0], tail, history);
    HeaderFields(f, dict, items[0]);
    assert payload + [] == payload;
  }

  lemma {:induction false} FileItemsHistory(pf: ProcFile)
    ensures History(FileItems(pf)) == FileBytes(pf)
  {
    var parts := W.Chunks(FileBytes(pf));
    W.PiecesFacts(0, 1, FILE, parts);
    W.ChunksFlatten(FileBytes(pf));
    assert FileItems(pf)[1..] == W.Pieces(0, 1, FILE, parts);
  }

  // ---------------------------------------------------------------- records

  /** Both metadata records are far below the size of a block. */
  lemma RecordSizes(version: nat, arch: nat)
    ensures 1 <= Sum(ProcessWidths(version)) <= 560
    ensures 1 <= Sum(ThreadWidths(version, arch)) <= 4000
  {
    hide Sum;
    var cred: seq<nat> := if version >= 5 then [4, 4, 4] else [];
    assert [4, 4, 4, 16, 8, 512] == [4, 4, 4] + [16, 8, 512];
    SumConcat([4, 4, 4] + [16, 8, 512], cred);
    SumConcat([4, 4, 4], [16, 8, 512]);
    Sum3(4, 4, 4);
    Sum3(16, 8, 512);
    var x: seq<nat> := if arch == ARCH_X64 then [XSTATE_SIZE] else [];
    var y: seq<nat> := if version >= 3 then [1, 8, 8] else [];
    var regs := [RegsSize(arch), FpRegsSize(arch), SIGINFO_SIZE];
    assert [4, RegsSize(arch), FpRegsSize(arch), SIGINFO_SIZE] == [4] + regs;
    SumConcat([4] + regs + x, y);
    SumConcat([4] + regs, x);
    SumConcat([4], regs);
    Sum3(4, 0, 0);
    Sum3(RegsSize(arch), FpRegsSize(arch), SIGINFO_SIZE);
    Sum3(XSTATE_SIZE, 0, 0);
    Sum3(1, 8, 8);
  }

  lemma ProcessFits(version: nat, s: Snapshot)
    requires |s.time| == 16 && |s.zone| == 8 && |s.uname| == 512
    ensures Fits(ProcessWidths(version), ProcessFields(version, s))
  {
    hide ToLE;
  }

  lemma ThreadFits(version: nat, arch: nat, t: Thread)
    requires |t.regs| == RegsSize(arch) && |t.fpregs| == FpRegsSize(arch) && |t.siginfo| == SIGINFO_SIZE
    requires arch == ARCH_X64 ==> |t.xstate| == XSTATE_SIZE
    ensures Fits(ThreadWidths(version, arch), ThreadFields(version, arch, t))
  {
    hide ToLE;
  }

  lemma ProcessRoundTrip(version: nat, arch: nat, s: Snapshot)
    requires WellFormed(version, arch, s)
    ensures DecodeProcess(version, Flatten(ProcessFields(version, s))) == Some(MetaOf(version, s).process)
    ensures 1 <= |Flatten(ProcessFields(version, s))| <= BLOCK_SIZE
  {
    hide ToLE, FromLE, Cut, Flatten, MetaCost, Sum, FilesMatch;
    ProcessFits(version, s);
    CutFlatten(ProcessWidths(version), ProcessFields(version, s));
    FlattenLength(ProcessWidths(version), ProcessFields(version, s));
    RecordSizes(version, arch);
    Pow256Values();
    FromToLE(s.pid, 4);
    FromToLE(s.corePid, 4);
    FromToLE(|s.threads|, 4);
    FromToLE(s.uid, 4);
    FromToLE(s.gid, 4);
    CrashSignalFits(s.crashSig);
    FromToLE(s.crashSig, 4);
  }

  lemma CrashSignalFits(sig: nat)
    requires sig == 0 || IsCoreDumpSignal(sig)
    ensures sig < U32 && Signed32(sig) == sig
  {}

  lemma ThreadRoundTrip(version: nat, arch: nat, first: bool, crashSig: int, t: Thread)
    requires arch < ARCH_MAX && t.Ok(arch)
    requires version >= 5 && crashSig != 0 && first ==> t.Signo() == crashSig
    ensures DecodeThread(version, arch, first, crashSig, ThreadPayload(version, arch, t), t.stat)
      == Some(ThreadOf(version, crashSig, t))
    ensures 1 <= |ThreadPayload(version, arch, t)| <= BLOCK_SIZE
  {
    hide ToLE, FromLE, Cut, Flatten, Sum;
    ThreadFits(version, arch, t);
    CutFlatten(ThreadWidths(version, arch), ThreadFields(version, arch, t));
    FlattenLength(ThreadWidths(version, arch), ThreadFields(version, arch, t));
    RecordSizes(version, arch);
    Pow256Values();
    FromToLE(t.tid, 4);
    FromToLE(t.sigpend, 8);
    FromToLE(t.sighold, 8);
    FlagByte(if t.fpValid then 1 else 0);
  }

  lemma FlagByte(b: byte)
    ensures FromLE([b]) == b
  {
    assert [b][1..] == [];
  }

  // ---------------------------------------------------------------- files

  lemma {:induction false} FilesRoundTrip(f: Format, dict: seq<byte>, files: seq<ProcFile>, tail: seq<byte>,
                                          history: seq<byte>)
    requires f.codec.Lawful() && EndsWith(history, dict) && forall i :: 0 <= i < |files| ==> files[i].Ok()
    ensures ReadFiles(f, Before(f, dict, FilesItems(files), tail, history), |files|)
         == Some((files, Cursor(tail, history + History(FilesItems(files)))))
    decreases files
  {
    hide StreamBytes, DictAfter, History, EndsWith, Codec.Lawful, GetFile, FileItems, FileBytes, ProcFile.Ok;
    if files == [] {
      NoItems(f, dict, tail);
      NoHistory(history);
    } else {
      var a, b := FileItems(files[0]), FilesItems(files[1..]);
      Split(f, dict, a, b, tail, history);
      var dict' := DictAfter(dict, a);
      GetPutFile(f, dict, files[0], StreamBytes(f, dict', b) + tail, history);
      FileItemsHistory(files[0]);
      FilesRoundTrip(f, dict', files[1..], tail, history + History(a));
      assert [files[0]] + files[1..] == files;
    }
  }

  lemma NoHistory(history: seq<byte>)
    ensures history + History([]) == history
  {}

  // ---------------------------------------------------------------- threads

  /** The tail of a thread list still to be read, against the TIDs and the cost so far. */
  ghost predicate ThreadsOk(version: nat, arch: nat, crashSig: int, threads: seq<Thread>, seen: set<nat>,
                            first: bool, cost: nat) {
    && arch < ARCH_MAX && DistinctTids(threads)
    && (forall i :: 0 <= i < |threads| ==> threads[i].Ok(arch) && threads[i].tid !in seen)
    && cost + MetaCost(version, arch, threads) <= THREAD_META_MAX
    && (version >= 5 && crashSig != 0 && first && threads != [] ==> threads[0].Signo() == crashSig)
  }

  lemma ThreadsOkStep(version: nat, arch: nat, crashSig: int, threads: seq<Thread>, seen: set<nat>, first: bool,
                      cost: nat)
    requires ThreadsOk(version, arch, crashSig, threads, seen, first, cost) && threads != []
    ensures var t := threads[0];
            var cost' := cost + |ThreadPayload(version, arch, t)| + Size(t.stat);
            && arch < ARCH_MAX && t.Ok(arch) && t.tid !in seen && cost' <= THREAD_META_MAX && t.stat.Ok()
            && (version >= 5 && crashSig != 0 && first ==> t.Signo() == crashSig)
            && ThreadsOk(version, arch, crashSig, threads[1..], seen + {t.tid}, false, cost')
  {
    hide ThreadPayload, Thread.Signo;
  }

  function Decoded(version: nat, crashSig: int, threads: seq<Thread>): (r: seq<ThreadData>)
    ensures |r| == |threads|
  {
    seq(|threads|, i requires 0 <= i < |threads| => ThreadOf(version, crashSig, threads[i]))
  }

  lemma DecodedHead(version: nat, crashSig: int, threads: seq<Thread>)
    requires threads != []
    ensures Decoded(version, crashSig, threads)
      == [ThreadOf(version, crashSig, threads[0])] + Decoded(version, crashSig, threads[1..])
    ensures ThreadOf(version, crashSig, threads[0]).tid == threads[0].tid
  {}

  lemma {:induction false} ThreadsRoundTrip(f: Format, dict: seq<byte>, version: nat, arch: nat, crashSig: int,
                                            threads: seq<Thread>, seen: set<nat>, first: bool, cost: nat,
                                            tail: seq<byte>, history: seq<byte>)
    requires f.codec.Lawful() && EndsWith(history, dict)
    requires ThreadsOk(version, arch, crashSig, threads, seen, first, cost)
    ensures var items := ThreadsItems(version, arch, threads);
            ReadThreads(f, version, arch, crashSig, Before(f, dict, items, tail, history),
                        |threads|, seen, first, cost) ==
            Some((Decoded(version, crashSig, threads), Cursor(tail, history + History(items))))
    decreases threads
  {
    hide *;
    if threads == [] {
      NoThreads(f, dict, version, arch, crashSig, seen, first, cost, tail, history);
    } else {
      var t, rest := threads[0], threads[1..];
      ThreadsOkStep(version, arch, crashSig, threads, seen, first, cost);
      ThreadsHead(version, arch, threads);
      var payload := ThreadPayload(version, arch, t);
      var head: seq<Item> := [Block(0, THREAD, payload)];
      var b := ThreadsItems(version, arch, rest);
      var one := head + FileItems(t.stat);
      Split(f, dict, one, b, tail, history);
      var tail1 := StreamBytes(f, DictAfter(dict, one), b) + tail;
      Split(f, dict, head, FileItems(t.stat), tail1, history);
      var tail2 := StreamBytes(f, DictAfter(dict, head), FileItems(t.stat)) + tail1;
      ThreadRoundTrip(version, arch, first, crashSig, t);
      FirstBlockWritten(f, dict, THREAD, payload, tail2, history);
      GetPutFile(f, DictAfter(dict, head), t.stat, tail1, history + History(head));
      FileItemsHistory(t.stat);
      BeforeIs(f, DictAfter(dict, one), b, tail, history + History(one));
      ThreadsRoundTrip(f, DictAfter(dict, one), version, arch, crashSig, rest, seen + {t.tid}, false,
                       cost + |payload| + Size(t.stat), tail, history + History(one));
      DecodedHead(version, crashSig, threads);
      var c := Before(f, dict, one + b, tail, history);
      var c1 := ReadFirstBlock(f, c, THREAD).value.1;
      var c2 := GetFile(f, c1).value.1;
      var td := DecodeThread(version, arch, first, crashSig, payload, t.stat).value;
      var more := ReadThreads(f, version, arch, crashSig, c2, |threads| - 1, seen + {td.tid}, false,
                              cost + |payload| + Size(t.stat)).value;
      ReadThreadsStep(f, version, arch, crashSig, c, |threads|, seen, first, cost, payload, c1, t.stat, c2, td, more);
    }
  }

  lemma BeforeIs(f: Format, dict: seq<byte>, items: seq<Item>, tail: seq<byte>, history: seq<byte>)
    ensures Before(f, dict, items, tail, history) == Cursor(StreamBytes(f, dict, items) + tail, history)
  {}

  lemma ThreadsHead(version: nat, arch: nat, threads: seq<Thread>)
    requires threads != []
    ensures ThreadsItems(version, arch, threads)
         == [Block(0, THREAD, ThreadPayload(version, arch, threads[0]))] + FileItems(threads[0].stat)
            + ThreadsItems(version, arch, threads[1..])
    ensures THREAD < TYPE_MAX
  {
    hide ThreadPayload, FileItems;
  }

  lemma NoThreads(f: Format, dict: seq<byte>, version: nat, arch: nat, crashSig: int, seen: set<nat>, first: bool,
                  cost: nat, tail: seq<byte>, history: seq<byte>)
    ensures var items := ThreadsItems(version, arch, []);
            ReadThreads(f, version, arch, crashSig, Before(f, dict, items, tail, history), 0, seen, first, cost) ==
            Some((Decoded(version, crashSig, []), Cursor(tail, history + History(items))))
  {
    NoItems(f, dict, tail);
    NoHistory(history);
  }

  lemma ReadThreadsStep(f: Format, version: nat, arch: nat, crashSig: int, c: Cursor, n: nat, seen: set<nat>,
                        first: bool, cost: nat, payload: seq<byte>, c1: Cursor, stat: ProcFile, c2: Cursor,
                        td: ThreadData, rest: (seq<ThreadData>, Cursor))
    requires n > 0
    requires ReadFirstBlock(f, c, THREAD) == Some((payload, c1))
    requires GetFile(f, c1) == Some((stat, c2))
    requires DecodeThread(version, arch, first, crashSig, payload, stat) == Some(td)
    requires td.tid !in seen && cost + |payload| + Size(stat) <= THREAD_META_MAX
    requires ReadThreads(f, version, arch, crashSig, c2, n - 1, seen + {td.tid}, false,
                         cost + |payload| + Size(stat)) == Some(rest)
    ensures ReadThreads(f, version, arch, crashSig, c, n, seen, first, cost) == Some(([td] + rest.0, rest.1))
  {
    hide ReadFirstBlock, GetFile, DecodeThread;
  }

  // ---------------------------------------------------------------- the whole metadata

  lemma MetaFacts(version: nat, arch: nat, s: Snapshot)
    requires WellFormed(version, arch, s)
    ensures forall i :: 0 <= i < |s.files| ==> s.files[i].Ok()
    ensures FilesMatch(s.files, FileTypes(version), s.pid) && |s.files| == |FileTypes(version)|
    ensures ThreadsOk(version, arch, CrashSigOf(version, s), s.threads, {}, true, 0)
    ensures 0 < Signed32(|s.threads|) <= MAX_THREADS && PROCESS < TYPE_MAX
    ensures MetaOf(version, s)
      == Meta(MetaOf(version, s).process, s.files, Decoded(version, CrashSigOf(version, s), s.threads))
    ensures var p := MetaOf(version, s).process;
      p.pid == s.pid && p.threadNum == |s.threads| && p.crashSig == CrashSigOf(version, s)
    ensures version < 6 ==> exists t :: t in Decoded(version, CrashSigOf(version, s), s.threads) && t.tid == s.pid
  {
    hide MetaCost, Thread.Signo, FileTypes;
    if version < 6 {
      var t :| t in s.threads && t.tid == s.pid;
      var i :| 0 <= i < |s.threads| && s.threads[i] == t;
      assert Decoded(version, CrashSigOf(version, s), s.threads)[i].tid == s.pid;
    }
  }

  /** ReadMeta recovers every captured field, file and thread, in order, for each layout from version
      1 to 6, and stops exactly where the metadata ends. */
  lemma MetaRoundTrip(f: Format, dict: seq<byte>, version: nat, arch: nat, s: Snapshot, tail: seq<byte>,
                      history: seq<byte>)
    requires f.codec.Lawful() && EndsWith(history, dict) && WellFormed(version, arch, s)
    ensures ReadMeta(f, version, arch, Before(f, dict, MetaItems(version, arch, s), tail, history))
         == Some((MetaOf(version, s), Cursor(tail, history + History(MetaItems(version, arch, s)))))
  {
    hide *;
    MetaFacts(version, arch, s);
    var crashSig := CrashSigOf(version, s);
    var payload := Flatten(ProcessFields(version, s));
    var a: seq<Item> := [Block(0, PROCESS, payload)];
    var b, c := FilesItems(s.files), ThreadsItems(version, arch, s.threads);
    MetaItemsAre(version, arch, s);
    Split(f, dict, a + b, c, tail, history);
    var tail1 := StreamBytes(f, DictAfter(dict, a + b), c) + tail;
    Split(f, dict, a, b, tail1, history);
    var tail2 := StreamBytes(f, DictAfter(dict, a), b) + tail1;
    ProcessRoundTrip(version, arch, s);
    FirstBlockWritten(f, dict, PROCESS, payload, tail2, history);
    BeforeIs(f, DictAfter(dict, a), b, tail1, history + History(a));
    BeforeIs(f, DictAfter(dict, a + b), c, tail, history + History(a + b));
    FilesRoundTrip(f, DictAfter(dict, a), s.files, tail1, history + History(a));
    ThreadsRoundTrip(f, DictAfter(dict, a + b), version, arch, crashSig, s.threads, {}, true, 0,
                     tail, history + History(a + b));
    ReadMetaStep(f, version, arch, Before(f, dict, a + b + c, tail, history));
  }

  /** The PROCESS record stands first in the metadata. */
  lemma ProcessFirst(f: Format, dict: seq<byte>, version: nat, arch: nat, s: Snapshot, tail: seq<byte>,
                     history: seq<byte>)
    requires f.codec.Lawful() && EndsWith(history, dict) && WellFormed(version, arch, s)
    ensures var r := ReadFirstBlock(f, Before(f, dict, MetaItems(version, arch, s), tail, history), PROCESS);
      r.Some? && r.value.0 == Flatten(ProcessFields(version, s))
  {
    hide *;
    MetaFacts(version, arch, s);
    var payload := Flatten(ProcessFields(version, s));
    var a: seq<Item> := [Block(0, PROCESS, payload)];
    var b := FilesItems(s.files) + ThreadsItems(version, arch, s.threads);
    MetaItemsAre(version, arch, s);
    assert a + b == a + FilesItems(s.files) + ThreadsItems(version, arch, s.threads);
    Split(f, dict, a, b, tail, history);
    ProcessRoundTrip(version, arch, s);
    FirstBlockWritten(f, dict, PROCESS, payload, StreamBytes(f, DictAfter(dict, a), b) + tail, history);
  }

  lemma MetaItemsAre(version: nat, arch: nat, s: Snapshot)
    ensures MetaItems(version, arch, s)
         == [Block(0, PROCESS, Flatten(ProcessFields(version, s)))]
            + FilesItems(s.files) + ThreadsItems(version, arch, s.threads)
  {
    hide Flatten, ProcessFields, FilesItems, ThreadsItems;
  }

  lemma ReadMetaStep(f: Format, version: nat, arch: nat, c: Cursor)
    requires ReadFirstBlock(f, c, PROCESS).Some?
    requires var (payload, c1) := ReadFirstBlock(f, c, PROCESS).value;
             DecodeProcess(version, payload).Some? && ReadFiles(f, c1, |FileTypes(version)|).Some? &&
             var p := DecodeProcess(version, payload).value;
             var (files, c2) := ReadFiles(f, c1, |FileTypes(version)|).value;
             FilesMatch(files, FileTypes(version), p.pid) && 0 < Signed32(p.threadNum) <= MAX_THREADS &&
             ReadThreads(f, version, arch, p.crashSig, c2, p.threadNum, {}, true, 0).Some? &&
             var (threads, _) := ReadThreads(f, version, arch, p.crashSig, c2, p.threadNum, {}, true, 0).value;
             version < 6 ==> exists t :: t in threads && t.tid == p.pid
    ensures var (payload, c1) := ReadFirstBlock(f, c, PROCESS).value;
            var p := DecodeProcess(version, payload).value;
            var (files, c2) := ReadFiles(f, c1, |FileTypes(version)|).value;
            var (threads, c3) := ReadThreads(f, version, arch, p.crashSig, c2, p.threadNum, {}, true, 0).value;
            ReadMeta(f, version, arch, c) == Some((Meta(p, files, threads), c3))
  {
    hide ReadFirstBlock, DecodeProcess, ReadFiles, ReadThreads, FilesMatch, FileTypes, Signed32;
  }

  // ---------------------------------------------------------------- locality

  function More(c: Cursor, more: seq<byte>): Cursor {
    c.(rest := c.rest + more)
  }

  lemma FirstBlockLocal(f: Format, c: Cursor, t: nat, more: seq<byte>)
    requires ReadFirstBlock(f, c, t).Some?
    ensures var (payload, c') := ReadFirstBlock(f, c, t).value;
            ReadFirstBlock(f, More(c, more), t) == Some((payload, More(c', more)))
  {
    hide ReadBlock;
    ReadBlockLocal(f, c, more);
  }

  lemma {:induction false} ReadFilesLocal(f: Format, c: Cursor, n: nat, more: seq<byte>)
    requires ReadFiles(f, c, n).Some?
    ensures var (files, c') := ReadFiles(f, c, n).value;
            ReadFiles(f, More(c, more), n) == Some((files, More(c', more)))
    decreases n
  {
    hide GetFile;
    if n > 0 {
      GetFileLocal(f, c, more);
      ReadFilesLocal(f, GetFile(f, c).value.1, n - 1, more);
    }
  }

  lemma {:induction false} ReadThreadsLocal(f: Format, version: nat, arch: nat, crashSig: int, c: Cursor, n: nat,
                                            seen: set<nat>, first: bool, cost: nat, more: seq<byte>)
    requires ReadThreads(f, version, arch, crashSig, c, n, seen, first, cost).Some?
    ensures var (threads, c') := ReadThreads(f, version, arch, crashSig, c, n, seen, first, cost).value;
            ReadThreads(f, version, arch, crashSig, More(c, more), n, seen, first, cost)
              == Some((threads, More(c', more)))
    decreases n
  {
    hide GetFile, ReadFirstBlock, DecodeThread;
    if n > 0 {
      var (payload, c1) := ReadFirstBlock(f, c, THREAD).value;
      var (stat, c2) := GetFile(f, c1).value;
      var td := DecodeThread(version, arch, first, crashSig, payload, stat).value;
      FirstBlockLocal(f, c, THREAD, more);
      GetFileLocal(f, c1, more);
      ReadThreadsLocal(f, version, arch, crashSig, c2, n - 1, seen + {td.tid}, false,
                       cost + |payload| + Size(stat), more);
    }
  }

  lemma ReadMetaLocal(f: Format, version: nat, arch: nat, c: Cursor, more: seq<byte>)
    requires ReadMeta(f, version, arch, c).Some?
    ensures var (meta, c') := ReadMeta(f, version, arch, c).value;
            ReadMeta(f, version, arch, More(c, more)) == Some((meta, More(c', more)))
  {
    hide ReadFirstBlock, DecodeProcess, ReadFiles, ReadThreads, FilesMatch, FileTypes, Signed32;
    var (payload, c1) := ReadFirstBlock(f, c, PROCESS).value;
    var p := DecodeProcess(version, payload).value;
    var (files, c2) := ReadFiles(f, c1, |FileTypes(version)|).value;
    FirstBlockLocal(f, c, PROCESS, more);
    ReadFilesLocal(f, c1, |FileTypes(version)|, more);
    ReadThreadsLocal(f, version, arch, p.crashSig, c2, p.threadNum, {}, true, 0, more);
  }
}
