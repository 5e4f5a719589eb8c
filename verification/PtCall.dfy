/** The remote call of the x86-64 injector: what it saves of the tracee, and what every exit puts back. */
module PtCall {
  import opened Bytes

  /** User memory: the mapped addresses and their bytes. */
  type Memory = m: map<int, byte> | forall a :: a in m ==> 0 <= a < 0x8000_0000_0000_0000

  const RED_ZONE: nat := 128

  predicate WordMapped(m: Memory, a: int) {
    forall k :: a <= k < a + 8 ==> k in m
  }

  function Word(m: Memory, a: int): (w: seq<byte>)
    requires WordMapped(m, a)
    ensures |w| == 8
  {
    seq(8, i requires 0 <= i < 8 => m[a + i])
  }

  function WithWord(m: Memory, a: int, w: seq<byte>): Memory
    requires |w| == 8
  {
    map k | k in m :: if a <= k < a + 8 then w[k - a] else m[k]
  }

  const ZERO_WORD: seq<byte> := [0, 0, 0, 0, 0, 0, 0, 0]

  function InjectRsp(rsp: nat): int {
    rsp - 8 - rsp % 16
  }

  /** The callee starts with the stack alignment of section 3.2.2 of the System V AMD64 psABI, and its
      return slot lies inside the red zone that is saved. */
  lemma InjectRspAligned(rsp: nat)
    ensures InjectRsp(rsp) % 16 == 8
    ensures rsp - RED_ZONE <= InjectRsp(rsp) && InjectRsp(rsp) + 8 <= rsp
  {
    assert rsp == 16 * (rsp / 16) + rsp % 16;
    assert InjectRsp(rsp) == 16 * (rsp / 16 - 1) + 8;
  }

  /** A stopped or running thread under ptrace. Memory and extended state change by our requests, and
      in any way whatever while it runs. */
  class Tracee {
    var mem: Memory
    var xstate: seq<byte>
    var rsp: nat
    var stopped: bool
    /** Memory as the tracee itself last left it. */
    ghost var left: Memory
    /** The stack pointers it was made to enter a callee with, what waits reported, and whether a request has
        failed. */
    ghost var entered: seq<int>
    ghost var reports: seq<Status>
    ghost var trouble: bool

    constructor (mem: Memory, xstate: seq<byte>, rsp: nat, stopped: bool)
      ensures this.mem == left == mem && this.xstate == xstate && this.rsp == rsp && this.stopped == stopped
      ensures entered == [] && reports == [] && !trouble
    {
      this.mem, left := mem, mem;
      entered, reports, trouble := [], [], false;
      this.xstate, this.rsp, this.stopped := xstate, rsp, stopped;
    }

    method GetRegs() returns (r: Option<nat>)
      modifies this`trouble
      ensures r.Some? ==> r.value == rsp
      ensures trouble == (old(trouble) || r.None?)
    {
      var ok := *;
      r := if stopped && ok then Some(rsp) else None;
      trouble := trouble || r.None?;
    }

    method GetXstate() returns (r: Option<seq<byte>>)
      modifies this`trouble
      ensures r.Some? ==> r.value == xstate
      ensures trouble == (old(trouble) || r.None?)
    {
      var ok := *;
      r := if stopped && ok then Some(xstate) else None;
      trouble := trouble || r.None?;
    }

    method SetXstate(x: seq<byte>) returns (ok: bool)
      modifies this`xstate, this`trouble
      ensures ok ==> xstate == x
      ensures trouble == (old(trouble) || !ok)
    {
      ok := *;
      ok := ok && stopped;
      if ok { xstate := x; }
      trouble := trouble || !ok;
    }

    method Peek(a: int) returns (r: Option<seq<byte>>)
      modifies this`trouble
      ensures r.Some? ==> WordMapped(mem, a) && r.value == Word(mem, a)
      ensures trouble == (old(trouble) || r.None?)
    {
      var ok := *;
      r := if stopped && ok && WordMapped(mem, a) then Some(Word(mem, a)) else None;
      trouble := trouble || r.None?;
    }

    /** PTRACE_GETEVENTMSG. */
    method GetEventMsg() returns (ok: bool)
      modifies this`trouble
      ensures trouble == (old(trouble) || !ok)
    {
      ok := *;
      trouble := trouble || !ok;
    }

    /** A word write that fails may have written some of the bytes. */
    method Poke(a: int, w: seq<byte>) returns (ok: bool)
      requires |w| == 8
      modifies this`mem, this`trouble
      ensures mem.Keys == old(mem.Keys) && trouble == (old(trouble) || !ok)
      ensures forall k :: k in mem && !(a <= k < a + 8) ==> mem[k] == old(mem[k])
      ensures ok ==> WordMapped(mem, a) && mem == WithWord(old(mem), a, w)
    {
      ok := *;
      ok := ok && stopped && WordMapped(mem, a);
      if ok {
        mem := WithWord(mem, a, w);
      } else {
        var part: seq<byte> := *;
        if |part| == 8 { mem := WithWord(mem, a, part); }
      }
      trouble := trouble || !ok;
    }

    /** Arguments, program counter and stack pointer. The callee must find the return address 0 on an
        aligned stack. */
    method SetRegs(sp: int) returns (ok: bool)
      requires sp % 16 == 8 && WordMapped(mem, sp) && Word(mem, sp) == ZERO_WORD
      modifies this`rsp, this`entered, this`trouble
      ensures !ok ==> rsp == old(rsp)
      ensures entered == if ok then old(entered) + [sp] else old(entered)
      ensures trouble == (old(trouble) || !ok)
    {
      ok := *;
      ok := ok && stopped && sp >= 0;
      if ok {
        rsp := sp;
        entered := entered + [sp];
      }
      trouble := trouble || !ok;
    }

    /** Resumes the tracee; from then on it may change anything of its own. */
    method Cont() returns (ok: bool)
      modifies this
      ensures ok ==> mem == left
      ensures !ok ==> mem == old(mem) && left == old(left) && xstate == old(xstate)
      ensures entered == old(entered) && reports == old(reports) && trouble == (old(trouble) || !ok)
    {
      ok := *;
      ok := ok && stopped;
      if ok {
        mem, xstate, rsp := *, *, *;
        left := mem;
        stopped := false;
      }
      trouble := trouble || !ok;
    }

    /** Time passes; a tracee that runs may change again, and may stop or die. */
    method Wait() returns (r: Status)
      modifies this
      ensures mem == left || (mem == old(mem) && left == old(left) && xstate == old(xstate))
      ensures entered == old(entered) && reports == old(reports) + [r] && trouble == old(trouble)
    {
      r := *;
      reports := reports + [r];
      if !stopped {
        mem, xstate, rsp, stopped := *, *, *, *;
        left := mem;
      }
    }

    /** pt_stop_if_running: the tracee is stopped, if it can be. */
    method Halt()
      modifies this
      ensures mem == left || (mem == old(mem) && left == old(left) && xstate == old(xstate))
      ensures entered == old(entered) && reports == old(reports) && trouble == old(trouble)
    {
      if !stopped {
        mem, xstate, rsp, stopped := *, *, *, *;
        left := mem;
      }
    }
  }

  /** What waitpid reports: a page fault or a sent SIGSEGV, another core-dumping signal, any other signal
      (which may be the notice of the child being reaped), a fork, another event, or no stop at all. */
  datatype Status =
    | NotStopped
    | SegvStop(fault: bool)
    | CoreStop
    | SignalStop(reapNotice: bool)
    | ForkStop
    | EventStop
    | WaitFails

  /** What has been saved so far; the red zone as its 16 words. */
  datatype Saved = Saved(stackWord: Option<seq<byte>>, redZone: Option<seq<seq<byte>>>, xstate: Option<seq<byte>>) {
    predicate Ok() {
      && (stackWord.Some? ==> |stackWord.value| == 8)
      && (redZone.Some? ==> |redZone.value| == 16 && forall i :: 0 <= i < 16 ==> |redZone.value[i]| == 8)
    }
  }

  ghost predicate RedZoneHolds(m: Memory, base: int, words: seq<seq<byte>>) {
    forall i :: 0 <= i < |words| ==> WordMapped(m, base + 8 * i) && Word(m, base + 8 * i) == words[i]
  }

  ghost predicate SameOutside(m: Memory, m': Memory, base: int) {
    && m.Keys == m'.Keys
    && forall k :: k in m && !(base <= k < base + RED_ZONE) ==> m'[k] == m[k]
  }

  ghost predicate SameInside(m: Memory, m': Memory, base: int) {
    forall k :: k in m && base <= k < base + RED_ZONE ==> k in m' && m'[k] == m[k]
  }

  method SaveRedZone(t: Tracee, base: int) returns (r: Option<seq<seq<byte>>>)
    modifies t`trouble
    ensures (old(t.trouble) ==> t.trouble) && (r.None? ==> t.trouble)
    ensures r.Some? ==> |r.value| == 16 && RedZoneHolds(t.mem, base, r.value)
    ensures r.Some? ==> forall i :: 0 <= i < 16 ==> |r.value[i]| == 8
  {
    var words := [];
    for i := 0 to 16
      invariant |words| == i && RedZoneHolds(t.mem, base, words)
      invariant forall j :: 0 <= j < i ==> |words[j]| == 8
      invariant old(t.trouble) ==> t.trouble
    {
      var w := t.Peek(base + 8 * i);
      if w.None? { return None; }
      words := words + [w.value];
    }
    r := Some(words);
  }

  /** Writes back every word, also after one has failed. */
  method RestoreRedZone(t: Tracee, base: int, words: seq<seq<byte>>) returns (ok: bool)
    requires |words| == 16 && forall i :: 0 <= i < 16 ==> |words[i]| == 8
    modifies t`mem, t`trouble
    ensures SameOutside(old(t.mem), t.mem, base)
    ensures ok ==> RedZoneHolds(t.mem, base, words)
    ensures (old(t.trouble) ==> t.trouble) && (!ok ==> t.trouble)
  {
    ok := true;
    for i := 0 to 16
      invariant SameOutside(old(t.mem), t.mem, base)
      invariant ok ==> RedZoneHolds(t.mem, base, words[..i])
      invariant (old(t.trouble) ==> t.trouble) && (!ok ==> t.trouble)
    {
      ghost var before := t.mem;
      var done := t.Poke(base + 8 * i, words[i]);
      ok := ok && done;
      if ok { OneMoreWord(before, t.mem, base, words, i); }
    }
    assert words[..16] == words;
  }

  lemma WordKept(m: Memory, a: int, w: seq<byte>, b: int)
    requires |w| == 8 && WordMapped(m, b) && b + 8 <= a
    ensures WordMapped(WithWord(m, a, w), b) && Word(WithWord(m, a, w), b) == Word(m, b)
  {
    assert forall k :: b <= k < b + 8 ==> k in m ==> WithWord(m, a, w)[k] == m[k];
  }

  lemma OneMoreWord(m: Memory, m': Memory, base: int, words: seq<seq<byte>>, i: nat)
    requires i < |words| == 16 && |words[i]| == 8 && RedZoneHolds(m, base, words[..i])
    requires WordMapped(m', base + 8 * i) && m' == WithWord(m, base + 8 * i, words[i])
    ensures RedZoneHolds(m', base, words[..i + 1])
  {
    forall j | 0 <= j < i + 1
      ensures WordMapped(m', base + 8 * j) && Word(m', base + 8 * j) == words[j]
    {
      if j < i {
        assert words[..i][j] == words[j];
        WordKept(m, base + 8 * i, words[i], base + 8 * j);
      }
    }
  }

  /** Two memories in which the same words are found in the red zone agree there. */
  lemma RedZoneAgrees(m: Memory, m': Memory, base: int, words: seq<seq<byte>>)
    requires |words| == 16 && RedZoneHolds(m, base, words) && RedZoneHolds(m', base, words)
    ensures SameInside(m, m', base)
  {
    forall k | k in m && base <= k < base + RED_ZONE
      ensures k in m' && m'[k] == m[k]
    {
      var i, j := (k - base) / 8, (k - base) % 8;
      assert k == base + 8 * i + j && 0 <= i < 16;
      assert WordMapped(m', base + 8 * i);
      assert Word(m, base + 8 * i)[j] == m[k] && Word(m', base + 8 * i)[j] == m'[k];
    }
  }

  datatype Exit = Done | Failed | RecoveryFailed

  /** The restore sequence of every exit: the stack word, the red zone over it, the extended state. */
  method Restore(t: Tracee, sp: int, base: int, saved: Saved) returns (ok: bool)
    requires saved.Ok() && base <= sp && sp + 8 <= base + RED_ZONE
    modifies t`mem, t`xstate, t`trouble
    ensures (old(t.trouble) ==> t.trouble) && (!ok ==> t.trouble)
    ensures SameOutside(old(t.mem), t.mem, base)
    ensures ok && saved.redZone.Some? ==> RedZoneHolds(t.mem, base, saved.redZone.value)
    ensures ok && saved.redZone.None? && saved.stackWord.Some? ==>
      t.mem == WithWord(old(t.mem), sp, saved.stackWord.value)
    ensures saved == saved.(redZone := None, stackWord := None) ==> t.mem == old(t.mem)
    ensures ok ==> t.xstate == if saved.xstate.Some? then saved.xstate.value else old(t.xstate)
  {
    ok := true;
    if saved.stackWord.Some? {
      ok := t.Poke(sp, saved.stackWord.value);
    }
    if saved.redZone.Some? {
      var red := RestoreRedZone(t, base, saved.redZone.value);
      ok := ok && red;
    }
    if saved.xstate.Some? {
      var x := t.SetXstate(saved.xstate.value);
      ok := ok && x;
    }
  }

  /** The exit of every failure after the first: put everything saved so far back. */
  method Fail(t: Tracee, sp: int, base: int, saved: Saved) returns (r: Exit)
    requires saved.Ok() && base <= sp && sp + 8 <= base + RED_ZONE
    modifies t`mem, t`xstate, t`trouble
    ensures SameOutside(old(t.mem), t.mem, base) && !r.Done? && (old(t.trouble) ==> t.trouble)
    ensures r.Failed? && saved.redZone.Some? ==> RedZoneHolds(t.mem, base, saved.redZone.value)
    ensures r.Failed? && saved.redZone.None? && saved.stackWord.Some? ==>
      t.mem == WithWord(old(t.mem), sp, saved.stackWord.value)
    ensures saved.redZone.None? && saved.stackWord.None? ==> t.mem == old(t.mem)
    ensures r.Failed? ==> t.xstate == if saved.xstate.Some? then saved.xstate.value else old(t.xstate)
  {
    var ok := Restore(t, sp, base, saved);
    r := if ok then Failed else RecoveryFailed;
  }

  /** A report that does not end the call. */
  predicate GoesOn(s: Status) {
    s in {NotStopped, SignalStop(true), ForkStop, EventStop}
  }

  /** What a call that goes well sees: any number of reports that do not end it, and then the page fault. */
  ghost predicate RanToFault(reports: seq<Status>) {
    && reports != [] && reports[|reports| - 1] == SegvStop(true)
    && forall i :: 0 <= i < |reports| - 1 ==> GoesOn(reports[i])
  }

  /** The last report ends the call, and is not the page fault. */
  ghost predicate Foreign(reports: seq<Status>) {
    reports != [] && !GoesOn(reports[|reports| - 1]) && reports[|reports| - 1] != SegvStop(true)
  }

  /** Runs the injected call until it returns to address 0, which shows as a page fault; every other
      SIGSEGV, core-dumping signal or foreign signal, a failing request, and the deadline end it early. */
  method Await(t: Tracee, ghost base: int, turns: nat) returns (ok: bool, forked: bool, ghost seen: seq<Status>)
    requires SameOutside(t.left, t.mem, base)
    modifies t
    ensures SameOutside(t.left, t.mem, base) && t.entered == old(t.entered) && (old(t.trouble) ==> t.trouble)
    ensures t.reports == old(t.reports) + seen
    ensures ok ==> RanToFault(seen)
    ensures !ok ==> t.trouble || Foreign(seen) || |seen| == turns
    ensures (forked ==> ForkStop in seen) && (ok && ForkStop in seen ==> forked)
  {
    ok, forked, seen := false, false, [];
    var status := NotStopped;
    for i := 0 to turns
      invariant SameOutside(t.left, t.mem, base) && t.entered == old(t.entered) && (old(t.trouble) ==> t.trouble)
      invariant t.reports == old(t.reports) + seen && |seen| == i
      invariant status == (if i == 0 then NotStopped else seen[i - 1]) && !status.WaitFails?
      invariant forall k :: 0 <= k < i - 1 ==> GoesOn(seen[k]) && (seen[k] == ForkStop ==> forked)
      invariant forked ==> ForkStop in seen
    {
      match status {
        case SegvStop(fault) =>
          ok := fault;
          return;
        case CoreStop => return;
        case SignalStop(reapNotice) => if !reapNotice { return; }
        case ForkStop =>
          var message := t.GetEventMsg();
          if !message { return; }
          forked := true;
        case _ =>
      }
      var resumed := t.Cont();
      if !resumed { return; }
      status := t.Wait();
      seen := seen + [status];
      if status.WaitFails? {
        var timedOut := *;
        if timedOut { t.Halt(); }
        return;
      }
    }
    // The deadline: the tracee is stopped first, so that it can be restored.
    t.Halt();
  }

  lemma WordWritten(m: Memory, a: int, w: seq<byte>)
    requires |w| == 8 && WordMapped(m, a)
    ensures WordMapped(WithWord(m, a, w), a) && Word(WithWord(m, a, w), a) == w
  {
    var m', v := WithWord(m, a, w), Word(WithWord(m, a, w), a);
    forall i | 0 <= i < 8
      ensures v[i] == w[i]
    {
      assert v[i] == m'[a + i];
    }
  }

  lemma SameWordWritten(m: Memory, a: int)
    requires WordMapped(m, a)
    ensures WithWord(m, a, Word(m, a)) == m
  {
    var m' := WithWord(m, a, Word(m, a));
    forall k | k in m
      ensures m'[k] == m[k]
    {
      if a <= k < a + 8 { WordByte(m, a, k - a); }
    }
  }

  lemma WordByte(m: Memory, a: int, i: nat)
    requires WordMapped(m, a) && i < 8
    ensures a + i in m && Word(m, a)[i] == m[a + i]
  {}

  /** Enters the callee with a return address of 0 and waits for it to return. */
  method Inject(t: Tracee, sp: int, ghost base: int, turns: nat)
      returns (ok: bool, forked: bool, ghost seen: seq<Status>)
    requires sp % 16 == 8 && base <= sp && sp + 8 <= base + RED_ZONE && t.mem == t.left && WordMapped(t.mem, sp)
    modifies t
    ensures SameOutside(t.left, t.mem, base) && (old(t.trouble) ==> t.trouble)
    ensures t.reports == old(t.reports) + seen
    ensures ok ==> RanToFault(seen) && t.entered == old(t.entered) + [sp]
    ensures !ok ==> t.trouble || Foreign(seen) || |seen| == turns
    ensures (forked ==> ForkStop in seen) && (ok && ForkStop in seen ==> forked)
  {
    hide RanToFault, Foreign, Word, WithWord;
    forked, seen := false, [];
    ghost var entry := t.mem;
    ok := t.Poke(sp, ZERO_WORD);
    if ok {
      WordWritten(entry, sp, ZERO_WORD);
      ok := t.SetRegs(sp);
    }
    if ok { ok, forked, seen := Await(t, base, turns); }
    if ok {
      var after := t.GetRegs();
      ok := after.Some?;
    }
  }

  /** Whatever the callee does: every exit whose restore calls succeed leaves the red zone and the extended
      state as at entry, and no exit leaves a change of ours anywhere else. Done means that the callee was
      entered once, at the aligned stack pointer, and ran to its page fault with no signal of the target
      swallowed on the way; anything else has its cause. The loop ends when the deadline does; `turns` is how
      often it goes round before that. */
  method Call(t: Tracee, turns: nat) returns (r: Exit, forked: bool, ghost seen: seq<Status>)
    modifies t
    ensures !r.RecoveryFailed? ==> SameInside(old(t.mem), t.mem, old(t.rsp) - RED_ZONE) && t.xstate == old(t.xstate)
    ensures SameOutside(t.left, t.mem, old(t.rsp) - RED_ZONE)
    ensures t.reports == old(t.reports) + seen
    ensures r.Done? ==> RanToFault(seen) && t.entered == old(t.entered) + [InjectRsp(old(t.rsp))]
    ensures !r.Done? ==> t.trouble || Foreign(seen) || |seen| == turns
    ensures (forked ==> ForkStop in seen) && (r.Done? && ForkStop in seen ==> forked)
  {
    hide RanToFault, Foreign, Word, WithWord;
    forked, seen := false, [];
    t.left := t.mem;
    ghost var entry := t.mem;
    var regs := t.GetRegs();
    if regs.None? { return Failed, forked, seen; }
    var rsp := regs.value;
    var sp, base := InjectRsp(rsp), rsp - RED_ZONE;
    InjectRspAligned(rsp);
    var x := t.GetXstate();
    if x.None? { return Failed, forked, seen; }
    var w := t.Peek(sp);
    if w.None? {
      r := Fail(t, sp, base, Saved(None, None, x));
      return;
    }
    var red := SaveRedZone(t, base);
    if red.None? {
      SameWordWritten(t.mem, sp);
      r := Fail(t, sp, base, Saved(w, None, x));
      return;
    }
    var saved := Saved(w, red, x);
    var ok;
    ok, forked, seen := Inject(t, sp, base, turns);
    if !ok {
      r := Fail(t, sp, base, saved);
      if !r.RecoveryFailed? { RedZoneAgrees(entry, t.mem, base, red.value); }
      return;
    }
    var restored := Restore(t, sp, base, saved);
    if !restored { return RecoveryFailed, forked, seen; }
    RedZoneAgrees(entry, t.mem, base, red.value);
    r := Done;
  }
}
