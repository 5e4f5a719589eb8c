/** Accepted acores are prefix-free, and a written acore decompresses to the captured core. */
module CoreProofs {
  import opened Bytes
  import opened Lz4Codec
  import opened BlockStream
  import opened ProcFiles
  import opened Archive
  import opened ArchiveProofs
  import opened Notes
  import opened ElfLayout
  import opened CoreRebuild
  import W = WriterState

  // ---------------------------------------------------------------- prefix-freedom

  lemma HeaderLocal(c: Cursor, more: seq<byte>)
    requires VerifyFileHeader(c).Some?
    ensures var (version, arch, c') := VerifyFileHeader(c).value;
            VerifyFileHeader(More(c, more)) == Some((version, arch, More(c', more)))
  {
    hide FromLE;
    var c1 := ReadRaw(c, 6).value.1;
    assert (c.rest + more)[..6] == c.rest[..6] && (c.rest + more)[6..] == c1.rest + more;
    assert (c1.rest + more)[..2] == c1.rest[..2] && (c1.rest + more)[2..] == c1.rest[2..] + more;
  }

  lemma IsNextLocal(c: Cursor, t: nat, more: seq<byte>)
    requires |c.rest| >= 3
    ensures IsNext(More(c, more), t) == IsNext(c, t)
  {
    hide Unpack;
    assert (c.rest + more)[..3] == c.rest[..3];
  }

  lemma IsNextLong(c: Cursor, t: nat)
    ensures IsNext(c, t) ==> |c.rest| >= 3
  {}

  lemma {:induction false} ReadLoadsLocal(f: Format, c: Cursor, budget: nat, acc: seq<byte>, more: seq<byte>)
    requires ReadLoads(f, c, budget, acc).Some? && |ReadLoads(f, c, budget, acc).value.1.rest| >= 3
    ensures var (bytes, c') := ReadLoads(f, c, budget, acc).value;
            ReadLoads(f, More(c, more), budget, acc) == Some((bytes, More(c', more)))
    decreases |c.rest|
  {
    hide ReadBlock, IsNext;
    IsNextLong(c, LOADS);
    if IsNext(c, LOADS) {
      var r := ReadBlock(f, c);
      ReadBlockLocal(f, c, more);
      ReadLoadsLocal(f, r.next, budget, acc + r.payload, more);
    }
    IsNextLocal(c, LOADS, more);
  }

  lemma {:induction false} MoreElfLocal(f: Format, c: Cursor, limit: nat, have: nat, more: seq<byte>)
    requires MoreElf(f, c, limit, have).Some? && |MoreElf(f, c, limit, have).value.1.rest| >= 3
    ensures var (phdrs, c') := MoreElf(f, c, limit, have).value;
            MoreElf(f, More(c, more), limit, have) == Some((phdrs, More(c', more)))
    decreases |c.rest|
  {
    hide ReadBlock, IsNext, ReadPhdrs;
    IsNextLong(c, ELF);
    if IsNext(c, ELF) {
      var r := ReadBlock(f, c);
      ReadBlockLocal(f, c, more);
      MoreElfLocal(f, r.next, limit, have + |ReadPhdrs(r.payload, limit, have).value|, more);
    }
    IsNextLocal(c, ELF, more);
  }

  lemma ReadElfLocal(f: Format, arch: nat, c: Cursor, limit: nat, more: seq<byte>)
    requires ReadElf(f, arch, c, limit).Some? && |ReadElf(f, arch, c, limit).value.2.rest| >= 3
    ensures var (ehdr, phdrs, c') := ReadElf(f, arch, c, limit).value;
            ReadElf(f, arch, More(c, more), limit) == Some((ehdr, phdrs, More(c', more)))
  {
    hide ReadFirstBlock, MoreElf, ReadPhdrs, DecodeEhdr;
    var (payload, c1) := ReadFirstBlock(f, c, ELF).value;
    FirstBlockLocal(f, c, ELF, more);
    MoreElfLocal(f, c1, limit, 1 + |ReadPhdrs(payload[EHDR_SIZE..], limit, 1).value|, more);
  }

  lemma ReadPrefixLocal(env: Env, file: seq<byte>, more: seq<byte>)
    requires ReadPrefix(env, file).Some?
    ensures var p := ReadPrefix(env, file).value;
            ReadPrefix(env, file + more) == Some(p.(next := More(p.next, more)))
  {
    hide VerifyFileHeader, ReadMeta, ParseAll, LoadsOf, GenerateNotes;
    var c := Cursor(file, []);
    var (version, arch, c1) := VerifyFileHeader(c).value;
    var f := Format(env.codec, version >= 4);
    HeaderLocal(c, more);
    ReadMetaLocal(f, version, arch, c1, more);
  }

  lemma TailLong(f: Format, c: Cursor)
    requires ReadBlock(f, c).Tail?
    ensures |c.rest| >= 3
  {}

  lemma TailMore(f: Format, c: Cursor, more: seq<byte>)
    requires ReadBlock(f, c) == Tail([]) && more != []
    ensures ReadBlock(f, More(c, more)) != Tail([])
  {
    hide Unpack, Unframe;
    assert (c.rest + more)[..3] == c.rest[..3];
  }

  lemma FirstBlockLong(f: Format, c: Cursor, t: nat)
    requires ReadFirstBlock(f, c, t).Some?
    ensures |c.rest| >= 3
  {
    hide Unpack, Unframe;
  }

  lemma ReadElfLong(f: Format, arch: nat, c: Cursor, limit: nat)
    requires ReadElf(f, arch, c, limit).Some?
    ensures |c.rest| >= 3
  {
    hide ReadFirstBlock, MoreElf, ReadPhdrs, DecodeEhdr;
    FirstBlockLong(f, c, ELF);
  }

  lemma ReadBodyMore(p: Prefix, more: seq<byte>)
    requires ReadBody(p).Some? && more != []
    ensures ReadBody(p.(next := More(p.next, more))) == None
  {
    hide ReadLoads, ReadElf, ReadBlock, LayoutAccepted, Core.OffsetLoad, NotePhdr;
    var f := p.format;
    var (bytes, c3) := ReadLoads(f, p.next, p.total, []).value;
    var (ehdr, phdrs, c4) := ReadElf(f, p.arch, c3, |p.loads| + 1).value;
    ReadElfLong(f, p.arch, c3, |p.loads| + 1);
    TailLong(f, c4);
    ReadLoadsLocal(f, p.next, p.total, [], more);
    ReadElfLocal(f, p.arch, c3, |p.loads| + 1, more);
    TailMore(f, c4, more);
  }

  /** No accepted acore is a proper prefix of another: whatever is appended to an accepted file, and
      whatever is cut off its end, is rejected. */
  lemma PrefixFree(env: Env, file: seq<byte>, more: seq<byte>)
    requires Decompress(env, file).Some? && Decompress(env, file + more).Some?
    ensures more == []
  {
    hide ReadPrefix, ReadBody;
    if more != [] {
      ReadPrefixLocal(env, file, more);
      ReadBodyMore(ReadPrefix(env, file).value, more);
    }
  }

  /** Every proper truncation of an accepted acore is rejected. */
  lemma TruncationRejected(env: Env, file: seq<byte>, n: nat)
    requires Decompress(env, file).Some? && n < |file|
    ensures Decompress(env, file[..n]) == None
  {
    hide Decompress;
    assert file == file[..n] + file[n..];
    if Decompress(env, file[..n]).Some? {
      PrefixFree(env, file[..n], file[n..]);
    }
  }

  // ---------------------------------------------------------------- reading back LOADS

  lemma {:induction false} ReadLoadsWritten(f: Format, dict: seq<byte>, chunks: seq<seq<byte>>, budget: nat,
                                            acc: seq<byte>, tail: seq<byte>, history: seq<byte>)
    requires f.codec.Lawful() && EndsWith(history, dict)
    requires forall i :: 0 <= i < |chunks| ==> 1 <= |chunks[i]| <= BLOCK_SIZE
    requires |acc| + |Flatten(chunks)| <= budget && !IsNext(Cursor(tail, []), LOADS)
    ensures var items := W.Pieces(0, 0, LOADS, chunks);
            ReadLoads(f, Before(f, dict, items, tail, history), budget, acc) ==
            Some((acc + Flatten(chunks), Cursor(tail, history + Flatten(chunks))))
    decreases chunks
  {
    hide StreamBytes, ItemBytes, ReadBlock, Codec.Lawful, HeaderOf, Flatten, W.Pieces, ReadLoads, EndsWith, IsNext;
    var items := W.Pieces(0, 0, LOADS, chunks);
    if chunks == [] {
      NoChunks(acc, history);
      NoItems(f, dict, tail);
      NextIgnoresHistory(tail, [], history, LOADS);
      LoadsDone(f, Cursor(tail, history), budget, acc);
    } else {
      var part, rest := chunks[0], chunks[1..];
      var tail' := StreamBytes(f, part, items[1..]) + tail;
      ChunksHead(LOADS, chunks, acc);
      ChunksHead(LOADS, chunks, history);
      W.StreamHead(f, dict, items, tail);
      ReadWritten(f, dict, items[0], tail', history);
      HeaderFields(f, dict, items[0]);
      Appending(history, part);
      ReadLoadsWritten(f, part, rest, budget, acc + part, tail, history + part);
      LoadsNext(f, Cursor(ItemBytes(f, dict, items[0]) + tail', history), budget, acc, HeaderOf(f, dict, items[0]));
    }
  }

  lemma NoChunks(acc: seq<byte>, history: seq<byte>)
    ensures W.Pieces(0, 0, LOADS, []) == []
    ensures acc + Flatten([]) == acc && history + Flatten([]) == history
  {}

  lemma ChunksHead(t: nat, chunks: seq<seq<byte>>, acc: seq<byte>)
    requires chunks != []
    ensures var items := W.Pieces(0, 0, t, chunks);
            && items != [] && items[0] == Block(0, t, chunks[0])
            && items[1..] == W.Pieces(0, 0, t, chunks[1..])
    ensures acc + Flatten(chunks) == acc + chunks[0] + Flatten(chunks[1..])
    ensures |Flatten(chunks)| == |chunks[0]| + |Flatten(chunks[1..])|
  {}

  lemma NextIgnoresHistory(rest: seq<byte>, a: seq<byte>, b: seq<byte>, t: nat)
    ensures IsNext(Cursor(rest, a), t) == IsNext(Cursor(rest, b), t)
  {
    hide Unpack;
  }

  lemma LoadsDone(f: Format, c: Cursor, budget: nat, acc: seq<byte>)
    requires !IsNext(c, LOADS)
    ensures ReadLoads(f, c, budget, acc) == Some((acc, c))
  {
    hide IsNext;
  }

  lemma LoadsNext(f: Format, c: Cursor, budget: nat, acc: seq<byte>, h: BlockHeader)
    requires PeekHeader(c) == Some(h) && h.blockType == LOADS && ReadBlock(f, c).Got?
    requires |acc| + |ReadBlock(f, c).payload| <= budget
    ensures ReadLoads(f, c, budget, acc) == ReadLoads(f, ReadBlock(f, c).next, budget, acc + ReadBlock(f, c).payload)
  {
    hide ReadBlock, PeekHeader;
  }

  // ---------------------------------------------------------------- records are never split

  function WriteAll(w: W.State, recs: seq<seq<byte>>): W.State
    decreases recs
  {
    if recs == [] then w else WriteAll(W.Write(w, recs[0]), recs[1..])
  }

  function Payloads(groups: seq<seq<seq<byte>>>): (r: seq<seq<byte>>)
    ensures |r| == |groups|
  {
    if groups == [] then [] else [Flatten(groups[0])] + Payloads(groups[1..])
  }

  /** Any run of Writes below BLOCK_SIZE leaves each record wholly inside one block: the sealed
      payloads are concatenations of whole groups of records, and the groups are the records. */
  lemma {:induction false} RecordsWhole(w: W.State, recs: seq<seq<byte>>, cur: seq<seq<byte>>)
    returns (groups: seq<seq<seq<byte>>>)
    requires forall i :: 0 <= i < |recs| ==> 1 <= |recs[i]| < BLOCK_SIZE
    requires w.pending == Flatten(cur) && |w.pending| <= BLOCK_SIZE && (w.pending == [] <==> cur == [])
    ensures W.Flush(WriteAll(w, recs))
      == W.State(w.items + W.Pieces(0, 0, w.blockType, Payloads(groups)), [], w.blockType)
    ensures Flatten(groups) == cur + recs
    ensures forall i :: 0 <= i < |groups| ==> 1 <= |Payloads(groups)[i]| <= BLOCK_SIZE && groups[i] != []
    decreases recs
  {
    hide Flatten, W.Pieces, W.Write, WriteAll;
    if recs == [] {
      groups := if cur == [] then [] else [cur];
      LastGroup(w, cur);
    } else {
      var rec, rest := recs[0], recs[1..];
      var w' := W.Write(w, rec);
      WriteOne(w, recs);
      if |w.pending| + |rec| <= BLOCK_SIZE {
        FlattenSnoc(cur, rec);
        groups := RecordsWhole(w', rest, cur + [rec]);
        assert cur + [rec] + rest == cur + recs;
      } else {
        FlattenSnoc([], rec);
        assert [] + [rec] == [rec];
        var later := RecordsWhole(w', rest, [rec]);
        groups := [cur] + later;
        GroupCons(w.items, w.blockType, cur, later);
        assert [rec] + rest == recs;
        forall i | 0 <= i < |groups|
          ensures 1 <= |Payloads(groups)[i]| <= BLOCK_SIZE && groups[i] != []
        {
          if i > 0 { assert groups[i] == later[i - 1]; }
        }
      }
    }
  }

  lemma WriteOne(w: W.State, recs: seq<seq<byte>>)
    requires recs != [] && 1 <= |recs[0]| < BLOCK_SIZE && |w.pending| <= BLOCK_SIZE
    ensures WriteAll(w, recs) == WriteAll(W.Write(w, recs[0]), recs[1..])
    ensures W.Write(w, recs[0]).blockType == w.blockType
    ensures if |w.pending| + |recs[0]| <= BLOCK_SIZE then W.Write(w, recs[0]) == w.(pending := w.pending + recs[0])
            else w.pending != [] &&
                 W.Write(w, recs[0]) == W.State(w.items + [Block(0, w.blockType, w.pending)], recs[0], w.blockType)
  {}

  lemma FlattenSnoc(a: seq<seq<byte>>, x: seq<byte>)
    ensures Flatten(a + [x]) == Flatten(a) + x
    ensures Flatten<byte>([]) == [] && Flatten([]) + x == x
  {
    FlattenConcat(a, [x]);
    assert [x][1..] == [];
    assert Flatten([x]) == x + [];
  }

  lemma LastGroup(w: W.State, cur: seq<seq<byte>>)
    requires w.pending == Flatten(cur) && (w.pending == [] <==> cur == [])
    ensures var groups := if cur == [] then [] else [cur];
            && W.Flush(WriteAll(w, []))
               == W.State(w.items + W.Pieces(0, 0, w.blockType, Payloads(groups)), [], w.blockType)
            && Flatten(groups) == cur + []
            && (cur != [] ==> Payloads(groups) == [w.pending])
  {
    if cur != [] {
      assert [cur][1..] == [] && Flatten([cur]) == cur + [];
      assert Payloads([cur]) == [w.pending];
      assert W.Pieces(0, 0, w.blockType, [w.pending]) == [Block(0, w.blockType, w.pending)];
    }
  }

  lemma GroupCons(items: seq<Item>, t: nat, cur: seq<seq<byte>>, later: seq<seq<seq<byte>>>)
    ensures Payloads([cur] + later) == [Flatten(cur)] + Payloads(later)
    ensures items + W.Pieces(0, 0, t, Payloads([cur] + later))
         == items + [Block(0, t, Flatten(cur))] + W.Pieces(0, 0, t, Payloads(later))
    ensures Flatten([cur] + later) == cur + Flatten(later)
    ensures forall i :: 0 < i < |later| + 1 ==> Payloads([cur] + later)[i] == Payloads(later)[i - 1]
  {
    assert ([cur] + later)[1..] == later;
    var ps := [Flatten(cur)] + Payloads(later);
    assert ps[1..] == Payloads(later);
    assert items + ([Block(0, t, Flatten(cur))] + W.Pieces(0, 0, t, Payloads(later)))
        == items + [Block(0, t, Flatten(cur))] + W.Pieces(0, 0, t, Payloads(later));
  }
}
