/** The seekable view of a regenerated layer (registryd/stream.go), against a
    plain reader over the layer's bytes.

    Every method of the source takes the stream's mutex, so a history of calls
    is a sequence of the methods below.
 */
module LayerStream {
  import opened Wrappers

  type Byte = int

  datatype Err = EOF | UnexpectedEOF | StreamClosed | Generator | BadWhence | NegativePosition

  datatype Whence = SeekStart | SeekCurrent | SeekEnd | Invalid

  /** One run of the tar generator: it yields `supply`, then ends; a broken one may fail before. */
  class Generator {
    const supply: seq<Byte>
    const breaks: bool
    var at: nat

    ghost predicate Valid()
      reads this
    {
      at <= |supply|
    }

    constructor (supply: seq<Byte>, breaks: bool)
      ensures Valid() && this.supply == supply && this.breaks == breaks && at == 0
    {
      this.supply, this.breaks, this.at := supply, breaks, 0;
    }

    /** An io.Reader: some bytes and possibly an error with them. EOF only at the end; a reader
        at the end reports it unless it breaks or is asked for nothing. */
    method Read(n: nat) returns (b: seq<Byte>, err: Option<Err>)
      requires Valid()
      modifies this`at
      ensures Valid() && at == old(at) + |b| && |b| <= n
      ensures b == supply[old(at)..at]
      ensures err.Some? ==> err.value in {EOF, Err.Generator}
      ensures err == Some(EOF) ==> at == |supply|
      ensures err == Some(Err.Generator) ==> breaks
      ensures n > 0 && err.None? ==> b != []
    {
      var trouble: bool := *;
      if breaks && trouble { return [], Some(Err.Generator); }
      var left := |supply| - at;
      var k: int := *;
      if k < 0 { k := 0; }
      if k > n { k := n; }
      if k > left { k := left; }
      if k == 0 && left > 0 && n > 0 { k := 1; }
      b := supply[at..at + k];
      at := at + k;
      var early: bool := *;
      err := if at == |supply| && (k == 0 || early) && n > 0 then Some(EOF) else None;
    }
  }

  /** What the generator yields and what was recorded at assembly agree as far as both go. */
  predicate Agrees(supply: seq<Byte>, layer: seq<Byte>) { supply <= layer || layer <= supply }

  lemma SameBytes(supply: seq<Byte>, layer: seq<Byte>, from: nat, n: nat)
    requires Agrees(supply, layer) && from + n <= |supply| && from + n <= |layer|
    ensures supply[from..from + n] == layer[from..from + n]
  {
  }

  // ---- the reader it stands in for ----

  datatype Call = DoSeek(offset: int, whence: Whence) | DoRead(n: nat) | DoClose

  datatype Answer = Moved(pos: nat) | Refused(why: Err) | Got(bytes: seq<Byte>, err: Option<Err>) | Closed

  /** A plain reader: a position, and whether it failed for good or was closed. */
  datatype Reader = Reader(pos: nat, sticky: Option<Err>, closed: bool)

  function Target(size: nat, r: Reader, offset: int, whence: Whence): Option<int> {
    match whence
    case SeekStart => Some(offset)
    case SeekCurrent => Some(r.pos + offset)
    case SeekEnd => Some(size + offset)
    case Invalid => None
  }

  /** The reader over `layer` may answer this call so, and be in this state afterwards. Bytes
      are always those at the logical position; a failure sticks; nothing works after Close. */
  ghost predicate Allowed(layer: seq<Byte>, r: Reader, c: Call, a: Answer, r': Reader) {
    match c
    case DoSeek(offset, whence) => (
      var t := Target(|layer|, r, offset, whence);
      if t.None? then a == Refused(BadWhence) && r' == r
      else if t.value < 0 then a == Refused(NegativePosition) && r' == r
      else a == Moved(t.value) && r' == r.(pos := t.value))
    case DoClose => a == Closed && r' == r.(closed := true)
    case DoRead(n) => (
      if r.closed then a == Got([], Some(StreamClosed)) && r' == r
      else if r.sticky.Some? then a == Got([], r.sticky) && r' == r
      else if r.pos >= |layer| then a == Got([], Some(EOF)) && r' == r
      else
        && a.Got? && |a.bytes| <= n && r.pos + |a.bytes| <= |layer|
        && (n > 0 && a.err.None? ==> a.bytes != [])
        && a.bytes == layer[r.pos..r.pos + |a.bytes|]
        && r'.pos == r.pos + |a.bytes| && !r'.closed
        && (if a.err.None? || (a.err == Some(EOF) && r'.pos == |layer|) then r'.sticky.None? else r'.sticky == a.err))
  }

  // ---- the stream ----

  /** What opening a generator would give. */
  datatype Opener = Opener(supply: seq<Byte>, breaks: bool, fails: bool)

  class Stream {
    ghost const layer: seq<Byte>
    const size: nat
    var pos: nat
    var rc: Generator?
    var streamPos: nat
    var err: Option<Err>
    var closed: bool
    ghost var starts: nat  // generators started so far

    ghost predicate Valid()
      reads this, rc
    {
      && size == |layer|
      && (rc != null ==> rc.Valid() && Agrees(rc.supply, layer) && streamPos == rc.at && !closed && err.None?)
    }

    ghost function AsReader(): Reader
      reads this
    {
      Reader(pos, err, closed)
    }

    constructor (ghost layer: seq<Byte>, size: nat)
      requires size == |layer|
      ensures Valid() && this.layer == layer && rc == null && AsReader() == Reader(0, None, false) && starts == 0
    {
      this.layer, this.size := layer, size;
      pos, rc, streamPos, err, closed, starts := 0, null, 0, None, false, 0;
    }

    method Seek(offset: int, whence: Whence) returns (a: Answer)
      requires Valid()
      modifies this`pos
      ensures Valid() && Allowed(layer, old(AsReader()), DoSeek(offset, whence), a, AsReader())
    {
      var abs;
      match whence {
        case SeekStart => abs := offset;
        case SeekCurrent => abs := pos + offset;
        case SeekEnd => abs := size + offset;
        case Invalid => return Refused(BadWhence);
      }
      if abs < 0 { return Refused(NegativePosition); }
      pos := abs;
      a := Moved(abs);
    }

    /** Makes a generator error sticky and drops the generator. */
    method Fail(e: Err)
      requires err.None?
      modifies this`rc, this`err
      ensures rc == null && err == Some(e)
    {
      rc, err := null, Some(e);
    }

    /** Drops any open generator and starts a fresh one from byte 0. */
    method Restart(o: Opener) returns (ok: bool)
      requires Valid() && !closed && err.None? && Agrees(o.supply, layer)
      modifies this`rc, this`streamPos, this`err, this`starts
      ensures Valid() && starts == old(starts) + 1 && ok == !o.fails
      ensures ok ==>
            rc != null && fresh(rc) && rc.supply == o.supply && rc.breaks == o.breaks && streamPos == 0 && err.None?
      ensures !ok ==> rc == null && err == Some(Err.Generator)
    {
      rc := null;
      starts := starts + 1;
      if o.fails {
        Fail(Err.Generator);
        return false;
      }
      rc := new Generator(o.supply, o.breaks);
      streamPos := 0;
      ok := true;
    }

    /** io.CopyN into the void: EOF when the generator ends first. */
    method Discard(n: nat) returns (e: Option<Err>)
      requires Valid() && rc != null
      modifies this`streamPos, rc
      ensures Valid() && rc == old(rc)
      ensures e.None? ==> streamPos == old(streamPos) + n
      ensures e.Some? ==> e.value in {EOF, Err.Generator}
      ensures e == Some(EOF) ==> |rc.supply| < old(streamPos) + n
      ensures e == Some(Err.Generator) ==> rc.breaks
    {
      var left := n;
      while left > 0
        invariant Valid() && rc == old(rc) && err.None? && !closed
        invariant left >= 0 && streamPos + left == old(streamPos) + n
        decreases left
      {
        var b, err' := rc.Read(left);
        streamPos, left := streamPos + |b|, left - |b|;
        if err'.Some? && left > 0 { return err'; }
      }
      e := None;
    }

    /** Whether the next Read has to start the generator over. */
    predicate MustRestart()
      reads this
    {
      rc == null || streamPos > pos
    }

    /** The bytes the generator behind the next Read yields in all. */
    function Supply(o: Opener): seq<Byte>
      reads this, rc
    {
      if MustRestart() then o.supply else rc.supply
    }

    /** Whether that generator is sound: it opens, and it does not break half way. */
    predicate SoundGenerator(o: Opener)
      reads this, rc
    {
      if MustRestart() then !o.fails && !o.breaks else !rc.breaks
    }

    /** Brings the generator to the logical position: restart when it is past it, then skip. */
    method Reach(o: Opener) returns (e: Option<Err>)
      requires Valid() && Agrees(o.supply, layer) && !closed && err.None? && pos < size
      modifies this`rc, this`streamPos, this`err, this`starts, rc
      ensures Valid() && (rc == null || rc == old(rc) || fresh(rc))
      ensures e.None? ==> rc != null && streamPos == pos && err.None?
      ensures e.None? ==> rc.supply == old(Supply(o)) && (old(SoundGenerator(o)) ==> !rc.breaks)
      ensures e.None? ==> pos <= |rc.supply|
      ensures e.Some? ==> err == e && rc == null && e.value in {EOF, Err.Generator}
      ensures e == Some(EOF) ==> |old(Supply(o))| < pos
      ensures e == Some(Err.Generator) ==> !old(SoundGenerator(o))
    {
      if rc == null || streamPos > pos {
        var ok := Restart(o);
        if !ok { return err; }
      }
      if pos > streamPos {
        e := Discard(pos - streamPos);
        if e.Some? { Fail(e.value); }
        return;
      }
      e := None;
    }

    /** Serves bytes from a generator that stands at the logical position. */
    method Serve(n: nat) returns (b: seq<Byte>, e: Option<Err>)
      requires Valid() && rc != null && streamPos == pos && pos < size && err.None?
      modifies this`pos, this`streamPos, this`rc, this`err, rc
      ensures Valid() && (rc == null || rc == old(rc))
      ensures |b| <= n && pos == old(pos) + |b| <= size && b == layer[old(pos)..pos]
      ensures n > 0 && e.None? ==> b != []
      ensures e == Some(EOF) ==> pos == size
      ensures if e.None? || e == Some(EOF) then err.None? else err == e
      ensures err.Some? ==> old(rc).breaks || |old(rc).supply| < size
    {
      var want := if n > size - pos then size - pos else n;
      b, e := rc.Read(want);
      SameBytes(rc.supply, layer, pos, |b|);
      pos, streamPos := pos + |b|, streamPos + |b|;
      if e == Some(EOF) && pos < size { e := Some(UnexpectedEOF); }
      if e.Some? && e != Some(EOF) { Fail(e.value); }
    }

    method Read(n: nat, o: Opener) returns (a: Answer)
      requires Valid() && Agrees(o.supply, layer)
      modifies this, rc
      ensures Valid() && (rc == null || rc == old(rc) || fresh(rc))
      ensures Allowed(layer, old(AsReader()), DoRead(n), a, AsReader())
      ensures old(closed) ==> starts == old(starts) && rc == old(rc)
      ensures old(!closed && err.None? && pos < size && SoundGenerator(o)) ==>
                (EndsEarly(a) <==> |old(Supply(o))| < old(pos))
      ensures EndsEarly(a) && old(err.None?) ==> |old(Supply(o))| < old(pos)
      ensures old(!closed && err.None? && pos < size && SoundGenerator(o) && |Supply(o)| >= size) ==> err.None?
    {
      if closed { return Got([], Some(StreamClosed)); }
      if err.Some? { return Got([], err); }
      if pos >= size { return Got([], Some(EOF)); }
      var e := Reach(o);
      if e.Some? { return Got([], e); }
      var b;
      b, e := Serve(n);
      a := Got(b, e);
    }

    /** The answer claims a clean end although the stream is not at the end of the layer. */
    ghost predicate EndsEarly(a: Answer)
      reads this
    {
      a.Got? && a.err == Some(EOF) && pos < size
    }

    method Close() returns (a: Answer)
      requires Valid()
      modifies this`closed, this`rc
      ensures Valid() && rc == null && Allowed(layer, old(AsReader()), DoClose, a, AsReader())
    {
      closed, rc := true, null;
      a := Closed;
    }
  }

  // ---- whole histories ----

  /** The answers to a history of calls are those of the reader over `layer`. */
  ghost predicate Explained(layer: seq<Byte>, calls: seq<Call>, answers: seq<Answer>, states: seq<Reader>) {
    && |answers| == |calls| && |states| == |calls| + 1
    && states[0] == Reader(0, None, false)
    && forall i :: 0 <= i < |calls| ==> Allowed(layer, states[i], calls[i], answers[i], states[i + 1])
  }

  /** Every history of Seek, Read and Close, whatever the generators do, is explained by the
      plain reader over the layer. */
  method Replay(ghost layer: seq<Byte>, size: nat, calls: seq<Call>, openers: seq<Opener>)
    returns (answers: seq<Answer>)
    requires size == |layer| && |openers| == |calls|
    requires forall i :: 0 <= i < |openers| ==> Agrees(openers[i].supply, layer)
    ensures exists states :: Explained(layer, calls, answers, states)
  {
    var s := new Stream(layer, size);
    answers := [];
    ghost var states := [s.AsReader()];
    for i := 0 to |calls|
      invariant fresh(s) && s.Valid() && (s.rc != null ==> fresh(s.rc)) && s.layer == layer
      invariant Explained(layer, calls[..i], answers, states)
      invariant states[i] == s.AsReader()
    {
      var a;
      match calls[i] {
        case DoSeek(offset, whence) => a := s.Seek(offset, whence);
        case DoRead(n) => a := s.Read(n, openers[i]);
        case DoClose => a := s.Close();
      }
      assert calls[..i + 1] == calls[..i] + [calls[i]];
      answers, states := answers + [a], states + [s.AsReader()];
    }
    assert calls[..|calls|] == calls;
  }

  /** Failures stick: after one, no read of the same history yields a byte or changes its mind. */
  lemma {:induction false} FailureSticks(layer: seq<Byte>, calls: seq<Call>, answers: seq<Answer>,
                                         states: seq<Reader>, i: nat, j: nat)
    requires Explained(layer, calls, answers, states) && i <= j < |calls| && states[i].sticky.Some? && calls[j].DoRead?
    ensures states[j].sticky == states[i].sticky
    ensures answers[j] == Got([], states[i].sticky) || (states[j].closed && answers[j] == Got([], Some(StreamClosed)))
    decreases j - i
  {
    if i < j {
      assert Allowed(layer, states[i], calls[i], answers[i], states[i + 1]);
      FailureSticks(layer, calls, answers, states, i + 1, j);
    } else {
      assert Allowed(layer, states[j], calls[j], answers[j], states[j + 1]);
    }
  }

  /** Seeking n bytes from the start, or back from the end, puts the next read there; seeking by nothing
      tells the position and moves nowhere; a position before the start is refused. */
  lemma SeekMeans(layer: seq<Byte>, r: Reader, a: Answer, r': Reader, n: nat)
    ensures Allowed(layer, r, DoSeek(n, SeekStart), a, r') ==> a == Moved(n) && r' == Reader(n, r.sticky, r.closed)
    ensures Allowed(layer, r, DoSeek(0, SeekCurrent), a, r') ==> a == Moved(r.pos) && r' == r
    ensures Allowed(layer, r, DoSeek(n, SeekCurrent), a, r') ==> a == Moved(r.pos + n) && r'.pos == r.pos + n
    ensures n <= |layer| && Allowed(layer, r, DoSeek(0 - n, SeekEnd), a, r') ==>
              a == Moved(|layer| - n) && r' == Reader(|layer| - n, r.sticky, r.closed)
    ensures n > |layer| && Allowed(layer, r, DoSeek(0 - n, SeekEnd), a, r') ==>
              a == Refused(NegativePosition) && r' == r
    ensures Allowed(layer, r, DoSeek(n, Invalid), a, r') ==> a == Refused(BadWhence) && r' == r
  {
  }

  /** Reading the last n bytes: after a seek back from the end, reads that report no error yield the end
      of the layer and nothing else. */
  lemma TailRead(layer: seq<Byte>, r: Reader, n: nat, m: nat, a: Answer, a': Answer, mid: Reader, r': Reader)
    requires 0 < n <= |layer| && !r.closed && r.sticky.None?
    requires Allowed(layer, r, DoSeek(0 - n, SeekEnd), a, mid) && Allowed(layer, mid, DoRead(m), a', r')
    ensures a'.Got? && a'.bytes <= layer[|layer| - n..] && r'.pos == |layer| - n + |a'.bytes|
  {
    SeekMeans(layer, r, a, mid, n);
    assert a'.bytes == layer[mid.pos..mid.pos + |a'.bytes|];
  }

  // ---- a generator that runs short is not always reported ----

  /** The design says a generator that runs short gives an error, never a clean end. It does
      when the shortage shows while serving bytes. When it shows while skipping to the logical
      position, the skip's own EOF becomes the answer: here a three-byte layer, a generator
      that yields one byte, and a read at offset 2. Read's contract gives the exact condition:
      the generator ends before the position that the read starts from. */
  method ShortSkipLooksClean() returns (a: Answer, at: nat, size: nat)
    ensures a == Got([], Some(EOF)) && at < size
  {
    var s := new Stream([1, 2, 3], 3);
    var _ := s.Seek(2, SeekStart);
    var o := Opener([1], false, false);
    assert o.supply <= s.layer;
    a := s.Read(1, o);
    at, size := s.pos, s.size;
  }
}
