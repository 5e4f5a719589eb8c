/** Line splitting and structural validation of a captured /proc/<pid>/maps. */
module Maps {
  import opened Bytes

  const NUL: byte := 0
  const NEWLINE: byte := 10
  const MAX_REGIONS: nat := 0x10_0000

  /** One mapping; `perms` has the ELF bits PF_X = 1, PF_W = 2, PF_R = 4. */
  datatype Region = Region(start: nat, end: nat, perms: nat, offset: nat, inode: nat, name: seq<byte>) {
    predicate Bounded() {
      start < U64 && end < U64 && perms < 8 && offset < U64 && inode < U64
    }
  }

  /** An address of this size or more takes four hexadecimal digits, and so does one written with a minus
      sign, unless it lies within a buffer of the end of the address space. */
  const FOUR_DIGITS: nat := 0x1000
  /** Two such addresses and the hyphen between them, four permission letters, and one digit each for
      offset, device and inode with the three characters that separate them. */
  const SHORTEST_LINE: nat := 4 + 1 + 4 + 4 + 7

  /** The text conversion of one line, as given: fields fit their types, the name is part of the line, and
      the line has the characters that its fields take. */
  ghost predicate LawfulLine(parse: seq<byte> -> Option<Region>) {
    forall line: seq<byte> | parse(line).Some? ::
      var r := parse(line).value;
      && r.Bounded() && (forall b :: b in r.name ==> b in line)
      && (FOUR_DIGITS <= r.start < r.end <= U64 - BUFFER_SIZE ==> |line| >= SHORTEST_LINE)
  }

  function LineEnd(data: seq<byte>, i: nat): (e: nat)
    requires i <= |data|
    ensures i <= e <= |data| && NEWLINE !in data[i..e] && (e < |data| ==> data[e] == NEWLINE)
    decreases |data| - i
  {
    if i == |data| || data[i] == NEWLINE then i else LineEnd(data, i + 1)
  }

  function SkipNewlines(data: seq<byte>, i: nat): (e: nat)
    requires i <= |data|
    ensures i <= e <= |data| && (forall k :: i <= k < e ==> data[k] == NEWLINE) && (e < |data| ==> data[e] != NEWLINE)
    decreases |data| - i
  {
    if i == |data| || data[i] != NEWLINE then i else SkipNewlines(data, i + 1)
  }

  method ReadLine(data: seq<byte>, cur: nat) returns (line: seq<byte>, cur': nat)
    requires cur <= |data|
    ensures line == data[cur..LineEnd(data, cur)]
    ensures cur' == SkipNewlines(data, LineEnd(data, cur))
  {
    var e := cur;
    while e < |data| && data[e] != NEWLINE
      invariant cur <= e <= |data| && LineEnd(data, e) == LineEnd(data, cur)
    {
      e := e + 1;
    }
    line := data[cur..e];
    cur' := e;
    while cur' < |data| && data[cur'] == NEWLINE
      invariant e <= cur' <= |data| && SkipNewlines(data, cur') == SkipNewlines(data, e)
    {
      cur' := cur' + 1;
    }
  }

  /** The regions from position `cur` on, after a region that ended at `previousEnd`. */
  function RegionsFrom(parse: seq<byte> -> Option<Region>, data: seq<byte>, cur: nat,
                       previousEnd: nat): Option<seq<Region>>
    requires cur <= |data|
    decreases |data| - cur
  {
    var e := LineEnd(data, cur);
    var line := data[cur..e];
    if line == [] then Some([])
    else if NUL in line then None
    else
      match parse(line)
      case None => None
      case Some(r) =>
        if r.start >= r.end || r.start < previousEnd then None
        else
          match RegionsFrom(parse, data, SkipNewlines(data, e), r.end)
          case None => None
          case Some(rest) => Some([r] + rest)
  }

  function ParseMaps(parse: seq<byte> -> Option<Region>, data: seq<byte>): Option<seq<Region>> {
    match RegionsFrom(parse, data, 0, 0)
    case None => None
    case Some(regions) => if |regions| > MAX_REGIONS then None else Some(regions)
  }

  method Parse(parse: seq<byte> -> Option<Region>, data: seq<byte>) returns (r: Option<seq<Region>>)
    ensures r == ParseMaps(parse, data)
  {
    var regions: seq<Region> := [];
    var previousEnd := 0;
    var line, cur := ReadLine(data, 0);
    ghost var at := 0;
    PrependNothing(RegionsFrom(parse, data, 0, 0));
    while line != []
      invariant at <= |data| && line == data[at..LineEnd(data, at)] && cur == SkipNewlines(data, LineEnd(data, at))
      invariant |regions| <= MAX_REGIONS
      invariant RegionsFrom(parse, data, 0, 0) == Prepend(regions, RegionsFrom(parse, data, at, previousEnd))
      decreases |data| - at
    {
      PrependLonger(regions, RegionsFrom(parse, data, at, previousEnd));
      if NUL in line { return None; }
      var parsed := parse(line);
      if parsed.None? { return None; }
      var region := parsed.value;
      if region.start >= region.end || region.start < previousEnd { return None; }
      ghost var rest := RegionsFrom(parse, data, cur, region.end);
      assert RegionsFrom(parse, data, at, previousEnd) == Prepend([region], rest);
      PrependTwice(regions, region, rest);
      if |regions| >= MAX_REGIONS {
        PrependLonger(regions + [region], rest);
        return None;
      }
      regions, previousEnd, at := regions + [region], region.end, cur;
      line, cur := ReadLine(data, cur);
    }
    assert regions + [] == regions;
    return Some(regions);
  }

  ghost function Prepend(a: seq<Region>, r: Option<seq<Region>>): Option<seq<Region>> {
    if r.None? then None else Some(a + r.value)
  }

  lemma PrependLonger(a: seq<Region>, r: Option<seq<Region>>)
    ensures Prepend(a, r).Some? ==> |Prepend(a, r).value| >= |a|
  {}

  lemma PrependNothing(r: Option<seq<Region>>)
    ensures Prepend([], r) == r
  {
    if r.Some? { assert [] + r.value == r.value; }
  }

  lemma PrependTwice(a: seq<Region>, x: Region, r: Option<seq<Region>>)
    ensures Prepend(a, Prepend([x], r)) == Prepend(a + [x], r)
  {
    if r.Some? { assert a + ([x] + r.value) == a + [x] + r.value; }
  }

  // ---------------------------------------------------------------- what acceptance means

  /** Regions are non-empty, in address order and do not overlap. */
  ghost predicate Ordered(regions: seq<Region>) {
    && (forall i :: 0 <= i < |regions| ==> regions[i].start < regions[i].end)
    && (forall i, j :: 0 <= i < j < |regions| ==> regions[i].end <= regions[j].start)
  }

  /** data, from cur on, is exactly these non-empty lines, separated by newlines. */
  ghost predicate Covers(data: seq<byte>, cur: nat, lines: seq<seq<byte>>)
    requires cur <= |data|
    decreases lines
  {
    if lines == [] then cur == |data|
    else
      var e := cur + |lines[0]|;
      && lines[0] != [] && NEWLINE !in lines[0]
      && e <= |data| && data[cur..e] == lines[0]
      && (e < |data| ==> data[e] == NEWLINE)
      && Covers(data, SkipNewlines(data, e), lines[1..])
  }

  lemma NoRegions()
    ensures Ordered([])
  {}

  lemma OrderedCons(r: Region, rest: seq<Region>)
    requires Ordered(rest) && r.start < r.end && forall i :: 0 <= i < |rest| ==> rest[i].start >= r.end
    ensures Ordered([r] + rest)
  {}

  /** The lines a reader sees from cur on; an empty one ends the text. */
  function Lines(data: seq<byte>, cur: nat): seq<seq<byte>>
    requires cur <= |data|
    decreases |data| - cur
  {
    var e := LineEnd(data, cur);
    if cur == e then [] else [data[cur..e]] + Lines(data, SkipNewlines(data, e))
  }

  lemma {:induction false} LinesCover(data: seq<byte>, cur: nat)
    requires cur <= |data| && (cur < |data| ==> data[cur] != NEWLINE)
    ensures Covers(data, cur, Lines(data, cur))
    decreases |data| - cur
  {
    hide SkipNewlines;
    var e := LineEnd(data, cur);
    if cur < e {
      LinesCover(data, SkipNewlines(data, e));
      assert Lines(data, cur)[1..] == Lines(data, SkipNewlines(data, e));
    }
  }

  lemma {:induction false} RegionsOrdered(parse: seq<byte> -> Option<Region>, data: seq<byte>, cur: nat,
                                          previousEnd: nat)
    requires cur <= |data| && RegionsFrom(parse, data, cur, previousEnd).Some?
    ensures var regions := RegionsFrom(parse, data, cur, previousEnd).value;
            Ordered(regions) && forall i :: 0 <= i < |regions| ==> regions[i].start >= previousEnd
    decreases |data| - cur
  {
    hide LineEnd, SkipNewlines, Ordered;
    var e := LineEnd(data, cur);
    if data[cur..e] == [] {
      NoRegions();
    } else {
      var r := parse(data[cur..e]).value;
      RegionsOrdered(parse, data, SkipNewlines(data, e), r.end);
      OrderedCons(r, RegionsFrom(parse, data, SkipNewlines(data, e), r.end).value);
    }
  }

  lemma {:induction false} RegionsAreLines(parse: seq<byte> -> Option<Region>, data: seq<byte>, cur: nat,
                                           previousEnd: nat)
    requires cur <= |data| && RegionsFrom(parse, data, cur, previousEnd).Some?
    ensures var regions, lines := RegionsFrom(parse, data, cur, previousEnd).value, Lines(data, cur);
            |lines| == |regions| &&
            forall i :: 0 <= i < |lines| ==> NUL !in lines[i] && parse(lines[i]) == Some(regions[i])
    decreases |data| - cur
  {
    hide LineEnd, SkipNewlines;
    var e := LineEnd(data, cur);
    if data[cur..e] != [] {
      RegionsAreLines(parse, data, SkipNewlines(data, e), parse(data[cur..e]).value.end);
    }
  }

  /** A positive count means the whole file was consumed: every byte belongs to a line that became a
      region, or is a newline between lines. */
  lemma MapsSound(parse: seq<byte> -> Option<Region>, data: seq<byte>)
    requires ParseMaps(parse, data).Some? && ParseMaps(parse, data).value != []
    ensures var regions, lines := ParseMaps(parse, data).value, Lines(data, 0);
            && Ordered(regions) && |lines| == |regions| <= MAX_REGIONS
            && (forall i :: 0 <= i < |lines| ==> NUL !in lines[i] && parse(lines[i]) == Some(regions[i]))
            && Covers(data, 0, lines)
  {
    hide Ordered, Covers;
    RegionsOrdered(parse, data, 0, 0);
    RegionsAreLines(parse, data, 0, 0);
    LinesCover(data, 0);
  }

  /** How many mappings a text of a given size can have, below the last buffer of the address space: the
      few that start low may be short, each other one takes a whole line. */
  lemma {:induction false} RegionsTakeRoom(parse: seq<byte> -> Option<Region>, data: seq<byte>, cur: nat,
                                           previousEnd: nat)
    requires LawfulLine(parse) && cur <= |data| && RegionsFrom(parse, data, cur, previousEnd).Some?
    requires forall r :: r in RegionsFrom(parse, data, cur, previousEnd).value ==> r.end <= U64 - BUFFER_SIZE
    ensures var low := if previousEnd < FOUR_DIGITS then FOUR_DIGITS - previousEnd else 0;
            (SHORTEST_LINE + 1) * |RegionsFrom(parse, data, cur, previousEnd).value|
              <= |data| - cur + 1 + (SHORTEST_LINE + 1) * low
    decreases |data| - cur
  {
    hide LineEnd, SkipNewlines;
    var e := LineEnd(data, cur);
    var line := data[cur..e];
    if line != [] {
      var r := parse(line).value;
      var next := SkipNewlines(data, e);
      var rest := RegionsFrom(parse, data, next, r.end).value;
      assert RegionsFrom(parse, data, cur, previousEnd).value == [r] + rest;
      assert r in [r] + rest && forall x :: x in rest ==> x in [r] + rest;
      if e == |data| {
        EmptyText(parse, data, r.end);
      } else {
        RegionsTakeRoom(parse, data, next, r.end);
        LineThenNewline(data, cur);
      }
    }
  }

  lemma EmptyText(parse: seq<byte> -> Option<Region>, data: seq<byte>, previousEnd: nat)
    ensures SkipNewlines(data, |data|) == |data|
    ensures RegionsFrom(parse, data, |data|, previousEnd) == Some([])
  {}

  lemma LineThenNewline(data: seq<byte>, cur: nat)
    requires cur <= |data| && LineEnd(data, cur) < |data|
    ensures SkipNewlines(data, LineEnd(data, cur)) > LineEnd(data, cur)
  {}

  /** A maps text that fits the capture buffer names fewer mappings than a core can have headers for. */
  lemma MapsFitHeaders(parse: seq<byte> -> Option<Region>, data: seq<byte>)
    requires LawfulLine(parse) && ParseMaps(parse, data).Some? && |data| <= BUFFER_SIZE
    requires forall r :: r in ParseMaps(parse, data).value ==> r.end <= U64 - BUFFER_SIZE
    ensures |ParseMaps(parse, data).value| < 0xFFFE
  {
    hide LawfulLine, RegionsFrom;
    RegionsTakeRoom(parse, data, 0, 0);
  }

  /** Names taken from accepted maps never contain NUL. */
  lemma NamesClean(parse: seq<byte> -> Option<Region>, data: seq<byte>)
    requires LawfulLine(parse) && ParseMaps(parse, data).Some?
    ensures forall r :: r in ParseMaps(parse, data).value ==> r.Bounded() && NUL !in r.name
  {
    var regions := ParseMaps(parse, data).value;
    RegionsAreLines(parse, data, 0, 0);
    var lines := Lines(data, 0);
    forall r | r in regions ensures r.Bounded() && NUL !in r.name {
      var i :| 0 <= i < |regions| && regions[i] == r;
      assert parse(lines[i]) == Some(r);
    }
  }

  // ---------------------------------------------------------------- which texts are accepted

  /** A text of lines, each ended by a newline. */
  function Text(lines: seq<seq<byte>>): seq<byte> {
    if lines == [] then [] else lines[0] + [NEWLINE] + Text(lines[1..])
  }

  ghost predicate AreLines(lines: seq<seq<byte>>) {
    forall i :: 0 <= i < |lines| ==> lines[i] != [] && NEWLINE !in lines[i]
  }

  /** Each line is one region without a NUL, and the regions are non-empty and follow one another, adjacent or
      not, from `previousEnd` on. */
  ghost predicate LinesGive(parse: seq<byte> -> Option<Region>, lines: seq<seq<byte>>, previousEnd: nat,
                            regions: seq<Region>) {
    && |regions| == |lines|
    && forall i :: 0 <= i < |lines| ==>
         LineGives(parse, lines[i], EndBefore(previousEnd, regions, i), regions[i])
  }

  function EndBefore(previousEnd: nat, regions: seq<Region>, i: nat): nat
    requires i < |regions|
  {
    if i == 0 then previousEnd else regions[i - 1].end
  }

  /** A maps text is accepted with exactly these regions if and only if its lines give them, and they are not too
      many. */
  lemma MapsExact(parse: seq<byte> -> Option<Region>, lines: seq<seq<byte>>, regions: seq<Region>)
    requires AreLines(lines)
    ensures ParseMaps(parse, Text(lines)) == Some(regions) <==>
            LinesGive(parse, lines, 0, regions) && |lines| <= MAX_REGIONS
  {
    hide RegionsFrom, LinesGive, Text;
    assert Text(lines)[0..] == Text(lines);
    RegionsExact(parse, Text(lines), 0, 0, lines, regions);
    SameCount(parse, lines, 0, regions);
  }

  lemma SameCount(parse: seq<byte> -> Option<Region>, lines: seq<seq<byte>>, previousEnd: nat, regions: seq<Region>)
    ensures LinesGive(parse, lines, previousEnd, regions) ==> |regions| == |lines|
  {}

  lemma {:induction false} RegionsExact(parse: seq<byte> -> Option<Region>, data: seq<byte>, cur: nat,
                                        previousEnd: nat, lines: seq<seq<byte>>, regions: seq<Region>)
    requires cur <= |data| && data[cur..] == Text(lines) && AreLines(lines)
    ensures RegionsFrom(parse, data, cur, previousEnd) == Some(regions) <==>
            LinesGive(parse, lines, previousEnd, regions)
    decreases |lines|
  {
    hide LinesGive, AreLines, RegionsFrom, LineGives;
    if lines == [] {
      NoLines(parse, data, cur, previousEnd);
      NothingGiven(parse, previousEnd, regions);
    } else {
      var line := lines[0];
      var next := cur + |line| + 1;
      FirstLine(lines);
      LineThere(data, cur, line, Text(lines[1..]));
      RegionsStep(parse, data, cur, previousEnd, line);
      if regions != [] {
        GivesHead(parse, lines, previousEnd, regions);
        OnlyIts(parse, line, previousEnd, regions[0]);
        RegionsExact(parse, data, next, regions[0].end, lines[1..], regions[1..]);
        assert regions == [regions[0]] + regions[1..];
      } else {
        SameCount(parse, lines, previousEnd, regions);
      }
    }
  }

  lemma NoLines(parse: seq<byte> -> Option<Region>, data: seq<byte>, cur: nat, previousEnd: nat)
    requires cur <= |data| && data[cur..] == []
    ensures RegionsFrom(parse, data, cur, previousEnd) == Some([])
  {}

  lemma RegionsStep(parse: seq<byte> -> Option<Region>, data: seq<byte>, cur: nat, previousEnd: nat, line: seq<byte>)
    requires line != [] && cur + |line| < |data| && LineEnd(data, cur) == cur + |line|
    requires data[cur..cur + |line|] == line && SkipNewlines(data, cur + |line|) == cur + |line| + 1
    ensures var r := RegionsFrom(parse, data, cur, previousEnd);
      if parse(line).Some? && LineGives(parse, line, previousEnd, parse(line).value) then
        var rest := RegionsFrom(parse, data, cur + |line| + 1, parse(line).value.end);
        r == if rest.None? then None else Some([parse(line).value] + rest.value)
      else r == None
  {}

  lemma OnlyIts(parse: seq<byte> -> Option<Region>, line: seq<byte>, previousEnd: nat, r: Region)
    ensures LineGives(parse, line, previousEnd, r) ==> parse(line) == Some(r)
  {}

  lemma FirstLine(lines: seq<seq<byte>>)
    requires AreLines(lines) && lines != []
    ensures lines[0] != [] && NEWLINE !in lines[0] && AreLines(lines[1..])
    ensures Text(lines[1..]) != [] ==> Text(lines[1..])[0] != NEWLINE
  {
    NextStarts(lines[1..]);
  }

  lemma NothingGiven(parse: seq<byte> -> Option<Region>, previousEnd: nat, regions: seq<Region>)
    ensures LinesGive(parse, [], previousEnd, regions) <==> regions == []
  {}

  /** The line at the front and the text behind its newline. */
  lemma LineThere(data: seq<byte>, cur: nat, line: seq<byte>, rest: seq<byte>)
    requires cur <= |data| && data[cur..] == line + [NEWLINE] + rest && line != [] && NEWLINE !in line
    requires rest != [] ==> rest[0] != NEWLINE
    ensures cur + |line| + 1 <= |data| && LineEnd(data, cur) == cur + |line| && data[cur..cur + |line|] == line
    ensures data[cur + |line| + 1..] == rest
    ensures SkipNewlines(data, cur + |line|) == cur + |line| + 1
  {
    var s := data[cur..];
    var l := cur + |line|;
    assert s[..|line|] == line && s[|line|] == NEWLINE && s[|line| + 1..] == rest;
    assert data[cur..l] == s[..|line|] && data[l] == s[|line|] && data[l + 1..] == s[|line| + 1..];
    LineEndIs(data, cur, l);
    if rest != [] { assert data[l + 1] == data[l + 1..][0]; }
    assert SkipNewlines(data, l) == SkipNewlines(data, l + 1) == l + 1;
  }

  lemma {:induction false} LineEndIs(data: seq<byte>, i: nat, e: nat)
    requires i <= e < |data| && NEWLINE !in data[i..e] && data[e] == NEWLINE
    ensures LineEnd(data, i) == e
    decreases e - i
  {
    if i < e {
      assert data[i] == data[i..e][0] && data[i + 1..e] == data[i..e][1..];
      LineEndIs(data, i + 1, e);
    }
  }

  lemma NextStarts(lines: seq<seq<byte>>)
    requires AreLines(lines)
    ensures Text(lines) != [] ==> Text(lines)[0] != NEWLINE
  {
    if lines != [] { assert lines[0][0] in lines[0]; }
  }

  ghost predicate LineGives(parse: seq<byte> -> Option<Region>, line: seq<byte>, previousEnd: nat, r: Region) {
    NUL !in line && parse(line) == Some(r) && r.start < r.end && previousEnd <= r.start
  }

  lemma GivesHead(parse: seq<byte> -> Option<Region>, lines: seq<seq<byte>>, previousEnd: nat, regions: seq<Region>)
    requires lines != [] && regions != []
    ensures LinesGive(parse, lines, previousEnd, regions) <==>
            && LineGives(parse, lines[0], previousEnd, regions[0])
            && LinesGive(parse, lines[1..], regions[0].end, regions[1..])
  {
    var ls, rs := lines[1..], regions[1..];
    if LinesGive(parse, lines, previousEnd, regions) {
      forall i | 0 <= i < |ls|
        ensures LineGives(parse, ls[i], EndBefore(regions[0].end, rs, i), rs[i])
      {
        assert ls[i] == lines[i + 1] && rs[i] == regions[i + 1];
        if i > 0 { assert rs[i - 1] == regions[i]; }
      }
    }
    if LineGives(parse, lines[0], previousEnd, regions[0]) && LinesGive(parse, ls, regions[0].end, rs) {
      forall i | 0 <= i < |lines|
        ensures LineGives(parse, lines[i], EndBefore(previousEnd, regions, i), regions[i])
      {
        if i > 0 {
          assert lines[i] == ls[i - 1] && regions[i] == rs[i - 1];
          assert LineGives(parse, ls[i - 1], EndBefore(regions[0].end, rs, i - 1), rs[i - 1]);
        }
      }
    }
  }
}
