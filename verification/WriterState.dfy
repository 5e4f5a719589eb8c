/** What the write side of Lz4Stream has accepted so far, as a value: sealed items, the bytes still
    buffered and the current block type; and what every sequence of calls means for a reader. */
module WriterState {
  import opened Bytes
  import opened Lz4Codec
  import opened BlockStream

  datatype State = State(items: seq<Item>, pending: seq<byte>, blockType: nat) {
    predicate Ok() {
      AllOk(items) && |pending| <= BLOCK_SIZE && blockType < TYPE_MAX
    }
  }

  const START := State([], [], PROCESS)

  // ---------------------------------------------------------------- one call

  function Flush(w: State): State {
    if w.pending == [] then w else State(w.items + [Block(0, w.blockType, w.pending)], [], w.blockType)
  }

  function SetBlock(w: State, t: nat): State {
    (if t != w.blockType then Flush(w) else w).(blockType := t)
  }

  /** Consecutive pieces of BLOCK_SIZE bytes, the last one possibly shorter. */
  function Chunks(s: seq<byte>): (r: seq<seq<byte>>)
    ensures forall i :: 0 <= i < |r| ==> 1 <= |r[i]| <= BLOCK_SIZE
    decreases |s|
  {
    if s == [] then []
    else if |s| <= BLOCK_SIZE then [s]
    else [s[..BLOCK_SIZE]] + Chunks(s[BLOCK_SIZE..])
  }

  /** Pieces as blocks of type t; `first` and `later` are the continuation flags. */
  function Pieces(first: nat, later: nat, t: nat, parts: seq<seq<byte>>): (r: seq<Item>)
    ensures |r| == |parts|
    decreases parts
  {
    if parts == [] then [] else [Block(first, t, parts[0])] + Pieces(later, later, t, parts[1..])
  }

  function Write(w: State, s: seq<byte>): State {
    if s == [] then w
    else if |w.pending| + |s| <= BLOCK_SIZE then w.(pending := w.pending + s)
    else if |s| < BLOCK_SIZE then Flush(w).(pending := s)
    else var sealed := Flush(w); sealed.(items := sealed.items + Pieces(0, 0, w.blockType, Chunks(s)))
  }

  function WriteBlock(w: State, s: seq<byte>, t: nat): State {
    var sealed := Flush(w);
    sealed.(items := sealed.items + Pieces(0, 1, t, Chunks(s)))
  }

  function WriteRaw(w: State, s: seq<byte>): State {
    if s == [] then w else var sealed := Flush(w); sealed.(items := sealed.items + [Raw(s)])
  }

  // ---------------------------------------------------------------- sequences of calls

  datatype Call =
    | CallSetBlock(t: nat)
    | CallWrite(bytes: seq<byte>)
    | CallWriteBlock(bytes: seq<byte>, t: nat)
    | CallWriteRaw(bytes: seq<byte>)
    | CallFlush
  {
    predicate Ok() {
      (CallSetBlock? || CallWriteBlock?) ==> t < TYPE_MAX
    }
  }

  function Step(w: State, call: Call): State {
    match call
    case CallSetBlock(t) => SetBlock(w, t)
    case CallWrite(s) => Write(w, s)
    case CallWriteBlock(s, t) => WriteBlock(w, s, t)
    case CallWriteRaw(s) => WriteRaw(w, s)
    case CallFlush => Flush(w)
  }

  function RunCalls(w: State, calls: seq<Call>): State
    decreases calls
  {
    if calls == [] then w else RunCalls(Step(w, calls[0]), calls[1..])
  }

  /** One byte as its reader sees it: raw, or payload under a block type. */
  datatype Cell = RawByte(value: byte) | Data(blockType: nat, value: byte)

  function Tag(t: nat, s: seq<byte>): (r: seq<Cell>)
    ensures |r| == |s|
  {
    seq(|s|, i requires 0 <= i < |s| => Data(t, s[i]))
  }

  function TagRaw(s: seq<byte>): (r: seq<Cell>)
    ensures |r| == |s|
  {
    seq(|s|, i requires 0 <= i < |s| => RawByte(s[i]))
  }

  function ItemCells(item: Item): seq<Cell> {
    match item
    case Raw(bytes) => TagRaw(bytes)
    case Block(_, t, payload) => Tag(t, payload)
  }

  function Cells(items: seq<Item>): seq<Cell> {
    if items == [] then [] else ItemCells(items[0]) + Cells(items[1..])
  }

  function StateCells(w: State): seq<Cell> {
    Cells(w.items) + Tag(w.blockType, w.pending)
  }

  /** What the caller asked for: every byte in order, under the type current at the call. */
  function Meaning(t: nat, calls: seq<Call>): seq<Cell>
    decreases calls
  {
    if calls == [] then []
    else
      match calls[0]
      case CallSetBlock(t') => Meaning(t', calls[1..])
      case CallWrite(s) => Tag(t, s) + Meaning(t, calls[1..])
      case CallWriteBlock(s, t') => Tag(t', s) + Meaning(t, calls[1..])
      case CallWriteRaw(s) => TagRaw(s) + Meaning(t, calls[1..])
      case CallFlush => Meaning(t, calls[1..])
  }

  lemma {:induction false} CellsConcat(a: seq<Item>, b: seq<Item>)
    ensures Cells(a + b) == Cells(a) + Cells(b)
  {
    if a == [] {
      assert a + b == b;
    } else {
      assert (a + b)[0] == a[0] && (a + b)[1..] == a[1..] + b;
      CellsConcat(a[1..], b);
    }
  }

  lemma {:induction false} ChunksFlatten(s: seq<byte>)
    ensures Flatten(Chunks(s)) == s
    decreases |s|
  {
    if |s| > BLOCK_SIZE {
      ChunksFlatten(s[BLOCK_SIZE..]);
      assert s == s[..BLOCK_SIZE] + s[BLOCK_SIZE..];
    }
  }

  lemma {:induction false} PiecesFacts(first: nat, later: nat, t: nat, parts: seq<seq<byte>>)
    ensures Cells(Pieces(first, later, t, parts)) == Tag(t, Flatten(parts))
    ensures History(Pieces(first, later, t, parts)) == Flatten(parts)
    ensures forall i :: 0 <= i < |parts| ==>
              Pieces(first, later, t, parts)[i] == Block(if i == 0 then first else later, t, parts[i])
    decreases parts
  {
    if parts != [] {
      var items := Pieces(first, later, t, parts);
      assert items[1..] == Pieces(later, later, t, parts[1..]);
      PiecesFacts(later, later, t, parts[1..]);
      assert Tag(t, Flatten(parts)) == Tag(t, parts[0]) + Tag(t, Flatten(parts[1..]));
      forall i | 0 <= i < |parts|
        ensures items[i] == Block(if i == 0 then first else later, t, parts[i])
      {
        if i > 0 { assert items[i] == items[1..][i - 1]; }
      }
    }
  }

  lemma FlushFacts(w: State)
    requires w.Ok()
    ensures Flush(w).Ok() && Flush(w).pending == [] && Flush(w).blockType == w.blockType
    ensures StateCells(Flush(w)) == StateCells(w) == Cells(Flush(w).items)
  {
    if w.pending != [] {
      var b := Block(0, w.blockType, w.pending);
      CellsConcat(w.items, [b]);
      assert Cells([b]) == Tag(w.blockType, w.pending) + Cells([b][1..]);
    }
  }

  lemma AppendPieces(w: State, first: nat, later: nat, t: nat, s: seq<byte>)
    requires w.Ok() && w.pending == [] && first < 2 && later < 2 && t < TYPE_MAX
    ensures var w' := w.(items := w.items + Pieces(first, later, t, Chunks(s)));
            w'.Ok() && StateCells(w') == StateCells(w) + Tag(t, s)
  {
    PiecesFacts(first, later, t, Chunks(s));
    ChunksFlatten(s);
    CellsConcat(w.items, Pieces(first, later, t, Chunks(s)));
  }

  lemma WriteMeaning(w: State, s: seq<byte>)
    requires w.Ok()
    ensures Write(w, s).Ok() && Write(w, s).blockType == w.blockType
    ensures StateCells(Write(w, s)) == StateCells(w) + Tag(w.blockType, s)
  {
    FlushFacts(w);
    assert Tag(w.blockType, w.pending + s) == Tag(w.blockType, w.pending) + Tag(w.blockType, s);
    AppendPieces(Flush(w), 0, 0, w.blockType, s);
  }

  lemma WriteRawMeaning(w: State, s: seq<byte>)
    requires w.Ok()
    ensures WriteRaw(w, s).Ok() && WriteRaw(w, s).blockType == w.blockType
    ensures StateCells(WriteRaw(w, s)) == StateCells(w) + TagRaw(s)
  {
    FlushFacts(w);
    CellsConcat(Flush(w).items, [Raw(s)]);
    assert Cells([Raw(s)]) == TagRaw(s) + Cells([Raw(s)][1..]);
  }

  /** Every call adds exactly the bytes it was given, under the type it was given for. */
  lemma StepMeaning(w: State, call: Call)
    requires w.Ok() && call.Ok()
    ensures Step(w, call).Ok()
    ensures StateCells(Step(w, call)) == StateCells(w) + Meaning(w.blockType, [call])
    ensures Step(w, call).blockType == TypeAfter(w.blockType, call)
  {
    hide Write, WriteRaw, Cells, Pieces, Chunks, Tag, TagRaw;
    FlushFacts(w);
    assert [call][1..] == [];
    match call {
      case CallWrite(s) => WriteMeaning(w, s);
      case CallWriteBlock(s, t) => AppendPieces(Flush(w), 0, 1, t, s);
      case CallWriteRaw(s) => WriteRawMeaning(w, s);
      case CallSetBlock(t) =>
      case CallFlush =>
    }
  }

  function TypeAfter(t: nat, call: Call): nat {
    if call.CallSetBlock? then call.t else t
  }

  lemma MeaningCons(t: nat, calls: seq<Call>)
    requires calls != []
    ensures Meaning(t, calls) == Meaning(t, [calls[0]]) + Meaning(TypeAfter(t, calls[0]), calls[1..])
  {
    assert [calls[0]][1..] == [];
  }

  lemma {:induction false} RunMeaning(w: State, calls: seq<Call>)
    requires w.Ok() && forall i :: 0 <= i < |calls| ==> calls[i].Ok()
    ensures RunCalls(w, calls).Ok()
    ensures StateCells(RunCalls(w, calls)) == StateCells(w) + Meaning(w.blockType, calls)
    decreases calls
  {
    hide Step, StateCells, TypeAfter, State.Ok;
    if calls != [] {
      StepMeaning(w, calls[0]);
      RunMeaning(Step(w, calls[0]), calls[1..]);
      MeaningCons(w.blockType, calls);
    }
  }

  // ---------------------------------------------------------------- parsing the file back

  /** Where the protocol has raw fields (with their length) and where it has blocks. */
  datatype Slot = RawSlot(length: nat) | BlockSlot

  function Shape(items: seq<Item>): seq<Slot> {
    if items == [] then []
    else [match items[0] case Raw(b) => RawSlot(|b|) case Block(_, _, _) => BlockSlot] + Shape(items[1..])
  }

  function Parse(f: Format, shape: seq<Slot>, c: Cursor): Option<(seq<Item>, Cursor)>
    decreases shape
  {
    if shape == [] then Some(([], c))
    else
      match shape[0]
      case RawSlot(n) =>
        (match ReadRaw(c, n)
         case None => None
         case Some((bytes, c')) => Prepend(Raw(bytes), Parse(f, shape[1..], c')))
      case BlockSlot =>
        (match ReadBlock(f, c)
         case Got(h, payload, c') => Prepend(Block(h.prevCont, h.blockType, payload), Parse(f, shape[1..], c'))
         case _ => None)
  }

  function Prepend(item: Item, r: Option<(seq<Item>, Cursor)>): Option<(seq<Item>, Cursor)> {
    if r.None? then None else Some(([item] + r.value.0, r.value.1))
  }

  lemma ParseRaw(f: Format, items: seq<Item>, tail: seq<byte>, history: seq<byte>)
    requires items != [] && items[0].Raw?
    ensures Parse(f, Shape(items), Cursor(items[0].bytes + tail, history))
         == Prepend(items[0], Parse(f, Shape(items[1..]), Cursor(tail, history)))
  {
    var b := items[0].bytes;
    assert (b + tail)[..|b|] == b && (b + tail)[|b|..] == tail;
    assert Shape(items)[1..] == Shape(items[1..]);
  }

  lemma ParseBlock(f: Format, items: seq<Item>, c: Cursor)
    requires items != [] && items[0].Block?
    requires ReadBlock(f, c).Got? && ReadBlock(f, c).payload == items[0].payload
    requires var h := ReadBlock(f, c).header; h.prevCont == items[0].prevCont && h.blockType == items[0].blockType
    ensures Parse(f, Shape(items), c) == Prepend(items[0], Parse(f, Shape(items[1..]), ReadBlock(f, c).next))
  {
    assert Shape(items)[1..] == Shape(items[1..]);
  }

  lemma {:induction false} ParseInverts(f: Format, items: seq<Item>, dict: seq<byte>, tail: seq<byte>,
                                        history: seq<byte>)
    requires f.codec.Lawful() && AllOk(items) && EndsWith(history, dict)
    ensures Parse(f, Shape(items), Cursor(StreamBytes(f, dict, items) + tail, history))
         == Some((items, Cursor(tail, history + History(items))))
    decreases items
  {
    hide Parse, Shape, ReadBlock, ItemBytes, StreamBytes, History, Codec.Lawful;
    if items == [] {
      ParseNothing(f, dict, Cursor(tail, history));
    } else {
      var item, rest := items[0], items[1..];
      var tail' := StreamBytes(f, Dict(dict, item), rest) + tail;
      StreamHead(f, dict, items, tail);
      match item {
        case Raw(b) =>
          RawHead(f, dict, items);
          ParseInverts(f, rest, dict, tail, history);
          ParseRaw(f, items, tail', history);
        case Block(_, _, payload) =>
          BlockHead(items, history);
          ReadWritten(f, dict, item, tail', history);
          ParseInverts(f, rest, payload, tail, history + payload);
          ParseBlock(f, items, Cursor(ItemBytes(f, dict, item) + tail', history));
      }
      assert items == [item] + rest;
    }
  }

  lemma StreamHead(f: Format, dict: seq<byte>, items: seq<Item>, tail: seq<byte>)
    requires items != []
    ensures StreamBytes(f, dict, items) + tail
         == ItemBytes(f, dict, items[0]) + (StreamBytes(f, Dict(dict, items[0]), items[1..]) + tail)
  {
    hide ItemBytes, Dict;
  }

  lemma RawHead(f: Format, dict: seq<byte>, items: seq<Item>)
    requires items != [] && items[0].Raw?
    ensures ItemBytes(f, dict, items[0]) == items[0].bytes && History(items) == History(items[1..])
  {}

  lemma BlockHead(items: seq<Item>, history: seq<byte>)
    requires items != [] && items[0].Block?
    ensures history + History(items) == history + items[0].payload + History(items[1..])
  {}

  lemma ParseNothing(f: Format, dict: seq<byte>, c: Cursor)
    ensures Parse(f, Shape([]), c) == Some(([], c))
    ensures StreamBytes(f, dict, []) + c.rest == c.rest && c.history + History([]) == c.history
  {}

  /** The typed stream round trip: for every sequence of calls, the flushed file parses, against the
      protocol's shape, to items carrying exactly the bytes of the calls under their types. */
  lemma TypedRoundTrip(f: Format, calls: seq<Call>)
    requires f.codec.Lawful() && forall i :: 0 <= i < |calls| ==> calls[i].Ok()
    ensures var w := Flush(RunCalls(START, calls));
            && Parse(f, Shape(w.items), Cursor(StreamBytes(f, [], w.items), []))
               == Some((w.items, Cursor([], History(w.items))))
            && Cells(w.items) == Meaning(PROCESS, calls)
  {
    hide *;
    StartFacts();
    RunMeaning(START, calls);
    FlushFacts(RunCalls(START, calls));
    var items := Flush(RunCalls(START, calls)).items;
    ParseInverts(f, items, [], [], []);
    assert StreamBytes(f, [], items) + [] == StreamBytes(f, [], items);
    assert [] + History(items) == History(items);
  }

  lemma StartFacts()
    ensures START.Ok() && StateCells(START) == [] && EndsWith([], []) && START.blockType == PROCESS
    ensures forall w: State :: w.Ok() ==> AllOk(w.items)
  {}
}
