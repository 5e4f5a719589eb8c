/** The assumptions of the archive theorems can be met: there are a lawful codec and a capture they hold
    of, and so an archive that is accepted. */
module Witness {
  import opened Bytes
  import opened Lz4Codec
  import opened BlockStream
  import opened ProcFiles
  import opened Archive
  import opened ArchiveProofs
  import opened Maps
  import opened Notes
  import opened ElfLayout
  import opened CoreRebuild
  import opened CoreProofs
  import opened RoundTrip
  import opened LiveTarget
  import Dumping

  /** A codec that stores blocks as one literal. */
  const STORED := Codec((z: seq<byte>) => Some([Literal(z)]), (dict: seq<byte>, block: seq<byte>) => block)

  lemma StoredLawful()
    ensures STORED.Lawful()
  {
    forall dict: seq<byte>, block: seq<byte> | 1 <= |block| <= BLOCK_SIZE
      ensures Decode(dict, [Literal(block)]) == Some(block)
    {
      var ops := [Literal(block)];
      assert ops[1..] == [];
      assert Run(dict, ops) == Run(dict + block, []);
      assert (dict + block)[|dict|..] == block;
    }
  }

  const PAGE: Region := Region(0, 1, 4, 0, 0, [])
  const TEXT: seq<byte> := [97]

  function FileOf(t: byte): ProcFile { ProcFile(1, t, TEXT) }

  function SomeThread(): Thread {
    Thread(1, Zeros(216), Zeros(512), Zeros(128), Zeros(2696), true, 0, 0, FileOf(TYPE_STAT))
  }

  function SomeSnapshot(): Snapshot {
    Snapshot(1, 0, Zeros(16), Zeros(8), Zeros(512), 0, 0, 0,
             [FileOf(TYPE_CMDLINE), FileOf(TYPE_AUXV), FileOf(TYPE_MAPS), FileOf(TYPE_ENVIRON), FileOf(TYPE_IO),
              FileOf(TYPE_LIMITS), FileOf(TYPE_STAT)],
             [SomeThread()])
  }

  function SomeEnv(): Env {
    Env(STORED, line => Some(PAGE), s => true, s => Some(1), s => Some(1), s => Some((0, 0)), s => Some((0, 0)),
        m => Some([]), (arch, t) => Some([]))
  }

  function SomeCapture(): Capture {
    var ph := LoadPhdr(PAGE, 0);
    Capture(VERSION, ARCH_X64, SomeSnapshot(), [PAGE], 1, [[0]], [ElfRecs(Ehdr(Machine(ARCH_X64), 1), [ph])])
  }

  lemma ThreadOk()
    ensures SomeThread().Ok(ARCH_X64) && SomeThread().Signo() == 0
  {
    hide FromLE;
    var signo := SomeThread().siginfo[..4];
    assert signo == [0, 0, 0, 0];
    assert FromLE(signo) == 0 by {
      assert signo[1..] == [0, 0, 0] && signo[1..][1..] == [0, 0] && signo[1..][1..][1..] == [0];
      FromZeros(signo);
    }
  }

  lemma SnapshotOk()
    ensures WellFormed(VERSION, ARCH_X64, SomeSnapshot())
  {
    hide FromLE, Flatten, Sum, Thread.Ok, ThreadWidths;
    var t := SomeThread();
    ThreadOk();
    CostSmall(t);
    assert SomeSnapshot().threads == [t];
  }

  lemma CostSmall(t: Thread)
    requires t.Ok(ARCH_X64) && Size(t.stat) <= 1000
    ensures MetaCost(VERSION, ARCH_X64, [t]) <= 5000
  {
    hide FromLE, Flatten, Sum, ThreadWidths, ThreadFields;
    ThreadFits(VERSION, ARCH_X64, t);
    RecordSizes(VERSION, ARCH_X64);
    FlattenLength(ThreadWidths(VERSION, ARCH_X64), ThreadFields(VERSION, ARCH_X64, t));
    assert [t][1..] == [];
    assert MetaCost(VERSION, ARCH_X64, [t])
      == |ThreadPayload(VERSION, ARCH_X64, t)| + Size(t.stat) + MetaCost(VERSION, ARCH_X64, []);
  }

  lemma MapsParse()
    ensures ParseMaps(SomeEnv().line, TEXT) == Some([PAGE])
  {
    var line := SomeEnv().line;
    assert LineEnd(TEXT, 0) == 1 && SkipNewlines(TEXT, 1) == 1 && LineEnd(TEXT, 1) == 1;
    assert TEXT[0..1] == TEXT && TEXT[1..1] == [];
    assert line(TEXT) == Some(PAGE);
    assert RegionsFrom(line, TEXT, 1, 1) == Some([]);
    assert [PAGE] + [] == [PAGE];
    assert RegionsFrom(line, TEXT, 0, 0) == Some([PAGE] + []);
  }

  lemma TextParses()
    ensures ParseAll(SomeEnv(), VERSION, MetaOf(VERSION, SomeSnapshot())) == Some(([PAGE], 1))
  {
    hide ParseMaps;
    MapsParse();
    var meta := MetaOf(VERSION, SomeSnapshot());
    assert meta.files[2].data == TEXT && |meta.files| == |FileTypes(VERSION)|;
    assert forall t :: t in meta.threads ==> t.tid == 1;
  }

  lemma {:induction false} NotesBound(notes: seq<Note>, k: nat)
    requires forall i :: 0 <= i < |notes| ==> |notes[i].payload| <= k
    ensures |NotesBytes(notes)| <= |notes| * (k + 32)
    decreases notes
  {
    if notes != [] {
      NotesBound(notes[1..], k);
      assert |notes| * (k + 32) == (|notes| - 1) * (k + 32) + (k + 32);
      hide NotesBytes;
      assert |NoteBytes(notes[0])| <= k + 32;
    }
  }

  lemma ThreadNotesExist(t: ThreadData)
    requires |t.fpregs| <= 2696 && |t.xstate| <= 2696 && |t.siginfo| <= 2696
    ensures var r := ThreadsNotes(SomeEnv(), ARCH_X64, [t], true);
            r.Some? && |r.value| <= 4 && forall n :: n in r.value ==> n.Ok() && |n.payload| <= 2696
  {
    assert [t][1..] == [];
    assert ThreadsNotes(SomeEnv(), ARCH_X64, [], false) == Some([]);
    var one := ThreadNotes(SomeEnv(), ARCH_X64, t, true).value;
    assert ThreadsNotes(SomeEnv(), ARCH_X64, [t], true) == Some(one + []);
  }

  lemma PayloadExists()
    ensures FilePayload([PAGE], 1).Some? && |FilePayload([PAGE], 1).value| == 16
  {
    hide ToLE;
    assert [PAGE][1..] == [];
    assert FileMappings([PAGE]) == [] + FileMappings([]);
    assert PowerOfTwo(1);
  }

  lemma NotesExist()
    ensures GenerateNotes(SomeEnv(), ARCH_X64, MetaOf(VERSION, SomeSnapshot()), [PAGE], 1).Some?
  {
    hide FilePayload, ThreadsNotes, NotesBytes;
    var meta := MetaOf(VERSION, SomeSnapshot());
    var t := meta.threads[0];
    assert meta.threads == [t];
    assert |meta.files| == 7 && meta.files[1].data == TEXT;
    ThreadNotesExist(t);
    PayloadExists();
    var files, rest := FilePayload([PAGE], 1).value, ThreadsNotes(SomeEnv(), ARCH_X64, [t], true).value;
    var notes := [Note(NT_PRPSINFO, []), Note(NT_AUXV, TEXT), Note(NT_FILE, files)] + rest;
    NotesBound(notes, 2696);
    assert |notes| <= 7;
    assert |notes| * 2728 <= 7 * 2728;
    assert forall n :: n in notes ==> n.Ok();
  }

  lemma CaptureIsOk()
    ensures CaptureOk(SomeEnv(), SomeCapture()) && Representable(SomeCapture())
  {
    hide WellFormed, ParseAll, GenerateNotes, MetaOf, ElfRecs, SomeSnapshot, Codec.Lawful;
    var cap := SomeCapture();
    StoredLawful();
    SnapshotOk();
    TextParses();
    NotesExist();
    LineLawful();
    LoadsExist();
    GroupsExist(cap.groups[0], LoadPhdr(PAGE, 0));
    assert cap.groups == [cap.groups[0]] && [[0]][1..] == [];
    assert Flatten(cap.chunks) == [0] + [];
  }

  lemma LineLawful()
    ensures LawfulLine(SomeEnv().line)
  {}

  lemma LoadsExist()
    ensures LoadsOf([PAGE]) == Some(([LoadPhdr(PAGE, 0)], 1))
  {
    assert [PAGE][1..] == [];
    assert LoadsFrom([], 1) == Some(([], 1));
    assert [LoadPhdr(PAGE, 0)] + [] == [LoadPhdr(PAGE, 0)];
    assert LoadsFrom([PAGE], 0) == Some(([LoadPhdr(PAGE, 0)] + [], 1));
  }

  lemma OneRecord(ph: Phdr)
    ensures PhdrRecs([ph]) == [PhdrBytes(ph)]
  {
    var phdrs, n := [ph], 1;
    assert PhdrRecs(phdrs)[n - 1] == PhdrBytes(phdrs[n - 1]);
  }

  lemma GroupsExist(recs: seq<seq<byte>>, ph: Phdr)
    requires recs == ElfRecs(Ehdr(Machine(ARCH_X64), 1), [ph])
    ensures Flatten([recs]) == recs && GroupsOk([recs]) && recs != []
  {
    hide EhdrBytes, PhdrBytes;
    var h := Ehdr(Machine(ARCH_X64), 1);
    HeaderSizes(ph, h);
    assert [ph][1..] == [] && [recs][1..] == [];
    OneRecord(ph);
    assert Flatten([recs]) == recs + [];
    assert recs == [EhdrBytes(h)] + [PhdrBytes(ph)] && [EhdrBytes(h)] == [] + [EhdrBytes(h)];
    FlattenSnoc([EhdrBytes(h)], PhdrBytes(ph));
    FlattenSnoc([], EhdrBytes(h));
    assert Payloads([recs]) == [Flatten(recs)] + Payloads([]);
  }

  /** The archive theorems speak of something: some capture meets all their assumptions, and its file is
      accepted. */
  lemma ArchiveExists()
    ensures exists env, cap :: CaptureOk(env, cap) && Representable(cap)
    ensures exists env, file :: Decompress(env, file).Some?
  {
    hide CaptureOk, Representable, Decompress, StreamBytes, ArchiveItems, CoreOf, FormatOf;
    CaptureIsOk();
    var env, cap := SomeEnv(), SomeCapture();
    assert CaptureOk(env, cap) && Representable(cap);
    ArchiveRoundTrip(env, cap);
    assert Decompress(env, StreamBytes(FormatOf(env, cap), [], ArchiveItems(cap))).Some?;
  }

  function SomeLive(): LiveProcess {
    var text := Some(TEXT);
    LiveProcess(1, 0, 0, 0, Some(Zeros(16)), Zeros(8), Some(Zeros(512)), text,
                [text, text, text, text, text, text, text],
                [LiveThread(1, Some(Zeros(216)), Some(Zeros(512)), Some(Zeros(128)), Some(Zeros(2696)), text, text)])
  }

  lemma LiveShaped()
    ensures SomeLive().Shaped(ARCH_X64)
  {
    hide FromLE;
    FromZeros(Zeros(128)[..4]);
  }

  lemma LiveUsable()
    ensures Usable(SomeEnv(), SomeLive())
  {
    hide ParseMaps;
    MapsParse();
    assert PowerOfTwo(1);
    var env, p := SomeEnv(), SomeLive();
    forall i | 0 <= i < |p.files|
      ensures FileUsable(env, p.pid, FileTypes(VERSION)[i], p.files[i])
    {}
  }

  lemma LiveSnapshot()
    ensures SnapshotOf(SomeEnv(), ARCH_X64, SomeLive()) == SomeSnapshot()
  {
    var s, t := SnapshotOf(SomeEnv(), ARCH_X64, SomeLive()), SomeSnapshot();
    assert ThreadImage(SomeEnv(), ARCH_X64, SomeLive().threads[0]) == SomeThread();
    assert s.threads == t.threads;
    forall i | 0 <= i < 7
      ensures s.files[i] == t.files[i]
    {}
    assert s.files == t.files;
  }

  /** And a live process that a dump accepts. */
  lemma DumpPossible()
    ensures Dumping.Convertible(SomeEnv(), ARCH_X64, SomeLive()) && Usable(SomeEnv(), SomeLive())
  {
    hide WellFormed, ParseMaps, GenerateNotes, MetaOf, SomeSnapshot, Codec.Lawful, LawfulLine, Usable, SnapshotOf,
         MetaCost, LiveProcess.Shaped;
    StoredLawful();
    SnapshotOk();
    LiveShaped();
    LiveUsable();
    LiveSnapshot();
    SnapshotLimits();
    MapsParse();
    NotesExist();
    LineLawful();
  }

  lemma SnapshotLimits()
    ensures ReaderLimits(ARCH_X64, SomeSnapshot())
    ensures SomeSnapshot().files[1].data == TEXT == SomeSnapshot().files[2].data
  {
    hide MetaCost;
    SnapshotOk();
  }
}
