/** The notes of a rebuilt core as a debugger groups them: process notes, and one view per thread. */
module NoteViews {
  import opened Bytes
  import opened Archive
  import opened Maps
  import opened Notes
  import opened CoreRebuild

  const CORE: seq<byte> := [67, 79, 82, 69, 0]
  const LINUX: seq<byte> := [76, 73, 78, 85, 88, 0]

  predicate IsEntry(e: Entry, noteType: nat, name: seq<byte>) {
    e.noteType == noteType && e.name == name
  }

  predicate IsStatus(e: Entry) {
    IsEntry(e, NT_PRSTATUS, CORE)
  }

  /** The entries in front of the next NT_PRSTATUS. */
  function Own(es: seq<Entry>): seq<Entry> {
    if es == [] || IsStatus(es[0]) then [] else [es[0]] + Own(es[1..])
  }

  /** The descriptors of all entries of a type. */
  function Descs(es: seq<Entry>, noteType: nat, name: seq<byte>): seq<seq<byte>> {
    if es == [] then []
    else (if IsEntry(es[0], noteType, name) then [es[0].desc] else []) + Descs(es[1..], noteType, name)
  }

  /** A thread starts with its NT_PRSTATUS; what follows up to the next one is its own. */
  datatype View = View(status: seq<byte>, own: seq<Entry>)

  function Views(es: seq<Entry>): seq<View> {
    if es == [] then []
    else (if IsStatus(es[0]) then [View(es[0].desc, Own(es[1..]))] else []) + Views(es[1..])
  }

  /** A view is a thread: its status as converted, FP registers and XSTATE exactly when they are valid, and the
      siginfo of the first thread alone. */
  ghost predicate ViewShows(env: Env, arch: nat, t: ThreadData, first: bool, v: View) {
    && env.prstatus(arch, t) == Some(v.status)
    && Descs(v.own, NT_FPREGSET, CORE) == (if t.fpValid then [t.fpregs] else [])
    && Descs(v.own, NT_X86_XSTATE, LINUX) == (if t.fpValid && arch == ARCH_X64 then [t.xstate] else [])
    && Descs(v.own, NT_SIGINFO, CORE) == (if first then [t.siginfo] else [])
    && |v.own| == (if t.fpValid then if arch == ARCH_X64 then 2 else 1 else 0) + (if first then 1 else 0)
  }

  /** The note bytes of a core: process information, auxiliary vector and mapped files first, and then each
      thread in order. */
  ghost predicate NotesShow(env: Env, arch: nat, meta: Meta, regions: seq<Region>, page: nat, b: seq<byte>) {
    && Walk(b).Some?
    && var es := Walk(b).value;
    && |es| >= 3 && IsEntry(es[0], NT_PRPSINFO, CORE) && Some(es[0].desc) == env.prpsinfo(meta)
    && IsEntry(es[1], NT_AUXV, CORE) && |meta.files| > 1 && es[1].desc == meta.files[1].data
    && IsEntry(es[2], NT_FILE, CORE) && Some(es[2].desc) == FilePayload(regions, page)
    && |Views(es)| == |meta.threads|
    && forall i :: 0 <= i < |meta.threads| ==> ViewShows(env, arch, meta.threads[i], i == 0, Views(es)[i])
  }

  lemma {:induction false} EntriesConcat(a: seq<Note>, b: seq<Note>)
    ensures Entries(a + b) == Entries(a) + Entries(b)
    decreases a
  {
    if a == [] {
      assert a + b == b;
    } else {
      assert (a + b)[0] == a[0] && (a + b)[1..] == a[1..] + b;
      EntriesConcat(a[1..], b);
    }
  }

  ghost predicate NoStatus(es: seq<Entry>) {
    forall i :: 0 <= i < |es| ==> !IsStatus(es[i])
  }

  /** Entries without a status belong to the thread before them, up to the next status. */
  lemma {:induction false} OwnUpTo(a: seq<Entry>, b: seq<Entry>)
    requires NoStatus(a) && (b != [] ==> IsStatus(b[0]))
    ensures Own(a + b) == a && Views(a + b) == Views(b)
    decreases a
  {
    hide IsStatus;
    if a == [] {
      assert a + b == b;
    } else {
      assert (a + b)[0] == a[0] && (a + b)[1..] == a[1..] + b;
      OwnUpTo(a[1..], b);
      assert !IsStatus(a[0]);
    }
  }

  function FpNotes(t: ThreadData): seq<Note> {
    if t.fpValid then [Note(NT_FPREGSET, t.fpregs)] else []
  }

  function XstateNotes(arch: nat, t: ThreadData): seq<Note> {
    if t.fpValid && arch == ARCH_X64 then [Note(NT_X86_XSTATE, t.xstate)] else []
  }

  function SiginfoNotes(t: ThreadData, first: bool): seq<Note> {
    if first then [Note(NT_SIGINFO, t.siginfo)] else []
  }

  lemma OneView(env: Env, arch: nat, t: ThreadData, first: bool)
    requires ThreadNotes(env, arch, t, first).Some?
    ensures var es := Entries(ThreadNotes(env, arch, t, first).value);
      && es != [] && IsStatus(es[0]) && NoStatus(es[1..])
      && ViewShows(env, arch, t, first, View(es[0].desc, es[1..]))
  {
    var a, b, c := FpNotes(t), XstateNotes(arch, t), SiginfoNotes(t, first);
    var status := Note(NT_PRSTATUS, env.prstatus(arch, t).value);
    NotesAre(env, arch, t, first);
    var own := Entries(a) + Entries(b) + Entries(c);
    OwnView(env, arch, t, first, own);
    hide *;
    EntriesConcat([status], a + b + c);
    EntriesConcat(a + b, c);
    EntriesConcat(a, b);
    StatusEntry(status);
    assert ([EntryOf(status)] + own)[1..] == own;
  }

  lemma StatusEntry(note: Note)
    ensures Entries([note]) == [EntryOf(note)] && EntryOf(note).desc == note.payload
    ensures note.noteType == NT_PRSTATUS ==> IsStatus(EntryOf(note))
  {}

  lemma NotesAre(env: Env, arch: nat, t: ThreadData, first: bool)
    requires ThreadNotes(env, arch, t, first).Some?
    ensures env.prstatus(arch, t).Some?
    ensures ThreadNotes(env, arch, t, first).value
         == [Note(NT_PRSTATUS, env.prstatus(arch, t).value)]
            + (FpNotes(t) + XstateNotes(arch, t) + SiginfoNotes(t, first))
  {
    var a, b, c := FpNotes(t), XstateNotes(arch, t), SiginfoNotes(t, first);
    var s := [Note(NT_PRSTATUS, env.prstatus(arch, t).value)];
    assert ThreadNotes(env, arch, t, first).value == s + (a + b) + c;
  }

  lemma OwnView(env: Env, arch: nat, t: ThreadData, first: bool, own: seq<Entry>)
    requires env.prstatus(arch, t).Some?
    requires own == Entries(FpNotes(t)) + Entries(XstateNotes(arch, t)) + Entries(SiginfoNotes(t, first))
    ensures NoStatus(own) && ViewShows(env, arch, t, first, View(env.prstatus(arch, t).value, own))
  {
    hide Entries, Descs, DescOf, IsEntry;
    var a, b, c := FpNotes(t), XstateNotes(arch, t), SiginfoNotes(t, first);
    AtMostOne(a);
    AtMostOne(b);
    AtMostOne(c);
    TypesOf(a, b, c, NT_FPREGSET, CORE);
    TypesOf(a, b, c, NT_X86_XSTATE, LINUX);
    TypesOf(a, b, c, NT_SIGINFO, CORE);
    DescsAre(arch, t, first);
    NotStatus(a);
    NotStatus(b);
    NotStatus(c);
  }

  lemma NotStatus(notes: seq<Note>)
    requires |notes| <= 1 && (notes != [] ==> notes[0].noteType != NT_PRSTATUS)
    ensures NoStatus(Entries(notes))
  {
    AtMostOne(notes);
  }

  lemma DescsAre(arch: nat, t: ThreadData, first: bool)
    ensures var a, b, c := FpNotes(t), XstateNotes(arch, t), SiginfoNotes(t, first);
      && DescOf(a, NT_FPREGSET, CORE) == (if t.fpValid then [t.fpregs] else [])
      && DescOf(a, NT_X86_XSTATE, LINUX) == [] && DescOf(a, NT_SIGINFO, CORE) == []
      && DescOf(b, NT_X86_XSTATE, LINUX) == (if t.fpValid && arch == ARCH_X64 then [t.xstate] else [])
      && DescOf(b, NT_FPREGSET, CORE) == [] && DescOf(b, NT_SIGINFO, CORE) == []
      && DescOf(c, NT_SIGINFO, CORE) == (if first then [t.siginfo] else [])
      && DescOf(c, NT_FPREGSET, CORE) == [] && DescOf(c, NT_X86_XSTATE, LINUX) == []
  {}

  lemma AtMostOne(notes: seq<Note>)
    requires |notes| <= 1
    ensures Entries(notes) == (if notes == [] then [] else [EntryOf(notes[0])])
  {
    if notes != [] { assert notes[1..] == []; }
  }

  lemma DescsOf(notes: seq<Note>, noteType: nat, name: seq<byte>)
    requires |notes| <= 1
    ensures Descs(Entries(notes), noteType, name) == DescOf(notes, noteType, name)
  {
    AtMostOne(notes);
    if notes != [] { assert Entries(notes)[1..] == []; }
  }

  lemma {:induction false} DescsConcat(a: seq<Entry>, b: seq<Entry>, noteType: nat, name: seq<byte>)
    ensures Descs(a + b, noteType, name) == Descs(a, noteType, name) + Descs(b, noteType, name)
    decreases a
  {
    if a == [] {
      assert a + b == b;
    } else {
      assert (a + b)[0] == a[0] && (a + b)[1..] == a[1..] + b;
      DescsConcat(a[1..], b, noteType, name);
    }
  }

  function DescOf(notes: seq<Note>, noteType: nat, name: seq<byte>): seq<seq<byte>> {
    if notes != [] && IsEntry(EntryOf(notes[0]), noteType, name) then [notes[0].payload] else []
  }

  lemma TypesOf(a: seq<Note>, b: seq<Note>, c: seq<Note>, noteType: nat, name: seq<byte>)
    requires |a| <= 1 && |b| <= 1 && |c| <= 1
    ensures Descs(Entries(a) + Entries(b) + Entries(c), noteType, name)
         == DescOf(a, noteType, name) + DescOf(b, noteType, name) + DescOf(c, noteType, name)
  {
    DescsConcat(Entries(a) + Entries(b), Entries(c), noteType, name);
    DescsConcat(Entries(a), Entries(b), noteType, name);
    DescsOf(a, noteType, name);
    DescsOf(b, noteType, name);
    DescsOf(c, noteType, name);
    hide Entries, Descs;
  }

  lemma {:induction false} ThreadViews(env: Env, arch: nat, threads: seq<ThreadData>, first: bool)
    requires ThreadsNotes(env, arch, threads, first).Some?
    ensures var es := Entries(ThreadsNotes(env, arch, threads, first).value);
      && (es != [] ==> IsStatus(es[0])) && |Views(es)| == |threads|
      && forall i :: 0 <= i < |threads| ==> ViewShows(env, arch, threads[i], first && i == 0, Views(es)[i])
    decreases threads
  {
    hide ThreadNotes, ViewShows, IsStatus, NoStatus, Views, Own, Entries;
    if threads == [] {
      NoViews();
    }
    if threads != [] {
      var t := threads[0];
      OneView(env, arch, t, first);
      ThreadViews(env, arch, threads[1..], false);
      var own, rest := ThreadNotes(env, arch, t, first).value, ThreadsNotes(env, arch, threads[1..], false).value;
      EntriesConcat(own, rest);
      var es, more := Entries(own), Entries(rest);
      OwnUpTo(es[1..], more);
      FirstView(es, more);
    }
  }

  lemma NoViews()
    ensures Views([]) == [] && Entries([]) == []
  {}

  lemma FirstView(es: seq<Entry>, more: seq<Entry>)
    requires es != [] && IsStatus(es[0]) && Own(es[1..] + more) == es[1..] && Views(es[1..] + more) == Views(more)
    ensures Views(es + more) == [View(es[0].desc, es[1..])] + Views(more)
    ensures (es + more)[0] == es[0]
  {
    hide IsStatus, Own;
    assert (es + more)[1..] == es[1..] + more;
  }

  /** The notes a core is given are read back by any walker as the process and its threads. */
  lemma NotesReadable(env: Env, arch: nat, meta: Meta, regions: seq<Region>, page: nat)
    requires GenerateNotes(env, arch, meta, regions, page).Some?
    ensures NotesShow(env, arch, meta, regions, page, NotesBytes(GenerateNotes(env, arch, meta, regions, page).value))
  {
    hide FilePayload, NotesBytes, Walk, ViewShows, Note.Ok, ThreadsNotes, Views, Entries;
    var notes := GenerateNotes(env, arch, meta, regions, page).value;
    assert forall i :: 0 <= i < |notes| ==> notes[i] in notes;
    WalkNotes(notes);
    ThreadViews(env, arch, meta.threads, true);
    var head, rest := notes[..3], ThreadsNotes(env, arch, meta.threads, true).value;
    assert notes == head + rest;
    EntriesConcat(head, rest);
    HeadEntries(head);
    var es, more := Entries(head), Entries(rest);
    OwnUpTo(es, more);
    var all := Entries(notes);
    assert all == es + more && all[0] == es[0] && all[1] == es[1] && all[2] == es[2];
    assert Views(all) == Views(more);
    assert Walk(NotesBytes(notes)) == Some(all);
    assert Some(all[0].desc) == env.prpsinfo(meta);
    assert all[1].desc == meta.files[1].data && |meta.files| > 1;
    assert Some(all[2].desc) == FilePayload(regions, page);
    assert |Views(all)| == |meta.threads|;
    assert forall i :: 0 <= i < |meta.threads| ==> ViewShows(env, arch, meta.threads[i], i == 0, Views(all)[i]);
  }

  lemma HeadEntries(notes: seq<Note>)
    requires |notes| == 3
    requires notes[0].noteType == NT_PRPSINFO && notes[1].noteType == NT_AUXV && notes[2].noteType == NT_FILE
    ensures var es := Entries(notes);
      && |es| == 3 && NoStatus(es)
      && IsEntry(es[0], NT_PRPSINFO, CORE) && es[0].desc == notes[0].payload
      && IsEntry(es[1], NT_AUXV, CORE) && es[1].desc == notes[1].payload
      && IsEntry(es[2], NT_FILE, CORE) && es[2].desc == notes[2].payload
  {
    ThreeEntries(notes);
    hide Entries;
  }

  lemma ThreeEntries(notes: seq<Note>)
    requires |notes| == 3
    ensures Entries(notes) == [EntryOf(notes[0]), EntryOf(notes[1]), EntryOf(notes[2])]
  {
    hide EntryOf;
    var b, c := notes[1..], notes[1..][1..];
    assert c[1..] == [] && Entries(c) == [EntryOf(c[0])] + Entries(c[1..]);
    assert Entries(b) == [EntryOf(b[0])] + Entries(c);
  }
}
