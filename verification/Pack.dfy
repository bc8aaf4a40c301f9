/** The wire: frames, the chunked pack stream of amberiroh/pack.go, and the
    decoding of one pack.

    Payloads are bytes. The byte format of a pack is amberpack's, a library of its
    own; it appears here as an arbitrary codec.
 */
module Pack {
  import opened Wrappers
  import opened Objects

  newtype Byte = x: int | 0 <= x < 256

  /** How many bytes ride in one TData frame. */
  const CHUNK_SIZE: nat := 0x10_0000

  // ---- the pack format ----

  /** What the bytes since the last record amount to. */
  datatype Parsed = Incomplete | Record(item: Item) | Closing | Malformed

  /** A pack format: how a pack begins and ends, how an object is written, and how the bytes since
      the last record are read. */
  datatype Codec = Codec(opening: seq<Byte>, closing: seq<Byte>, record: Item -> seq<Byte>, parse: seq<Byte> -> Parsed)

  /** `bytes` reads as p, and no part of it reads as anything yet. */
  ghost predicate ReadsAs(c: Codec, bytes: seq<Byte>, p: Parsed) {
    bytes != [] && c.parse(bytes) == p && forall i :: 0 <= i < |bytes| ==> c.parse(bytes[..i]).Incomplete?
  }

  function ItemOf(k: Key): Item { Item(k, k.data) }

  /** Reading undoes the writing of these objects. */
  ghost predicate Good(c: Codec, ks: set<Key>) {
    && ReadsAs(c, c.closing, Closing)
    && forall k :: k in ks ==> ReadsAs(c, c.record(ItemOf(k)), Record(ItemOf(k)))
  }

  datatype Frame =
    | Wants(keys: seq<Key>)
    | Payload(data: seq<Byte>)
    | PayloadEnd
    | Error
    | Other

  // ---- writing ----

  /** The frames that carry whole chunks of s, and what is left over. */
  function FullChunks(s: seq<Byte>): seq<Frame>
    decreases |s|
  {
    if |s| < CHUNK_SIZE then [] else [Payload(s[..CHUNK_SIZE])] + FullChunks(s[CHUNK_SIZE..])
  }

  function Remainder(s: seq<Byte>): (r: seq<Byte>)
    ensures |r| < CHUNK_SIZE
    decreases |s|
  {
    if |s| < CHUNK_SIZE then s else Remainder(s[CHUNK_SIZE..])
  }

  function LastChunk(s: seq<Byte>): seq<Frame> { if s == [] then [] else [Payload(s)] }

  /** One finished pack on the wire. */
  function PackFrames(s: seq<Byte>): seq<Frame> {
    FullChunks(s) + LastChunk(Remainder(s)) + [PayloadEnd]
  }

  /** Appending to a stream that ends in a partial chunk only affects the partial chunk. */
  lemma {:induction false} ChunksAppend(s: seq<Byte>, p: seq<Byte>)
    ensures FullChunks(s + p) == FullChunks(s) + FullChunks(Remainder(s) + p)
    ensures Remainder(s + p) == Remainder(Remainder(s) + p)
    decreases |s|
  {
    if |s| >= CHUNK_SIZE {
      ChunksAppend(s[CHUNK_SIZE..], p);
      assert (s + p)[CHUNK_SIZE..] == s[CHUNK_SIZE..] + p;
      assert (s + p)[..CHUNK_SIZE] == s[..CHUNK_SIZE];
    }
  }

  /** Buffers pack bytes and emits them as CHUNK_SIZE frames. */
  class ChunkWriter {
    var out: seq<Frame>
    var buf: seq<Byte>
    ghost var written: seq<Byte>
    ghost const base: seq<Frame>

    ghost predicate Valid()
      reads this
    {
      out == base + FullChunks(written) && buf == Remainder(written)
    }

    constructor (out: seq<Frame>)
      ensures Valid() && base == out && written == []
    {
      this.out, this.buf, this.written, this.base := out, [], [], out;
    }

    method Flush()
      modifies this`out, this`buf
      ensures out == old(out) + LastChunk(old(buf)) && buf == []
    {
      if buf == [] { return; }
      out, buf := out + [Payload(buf)], [];
    }

    method Write(p: seq<Byte>)
      requires Valid()
      modifies this
      ensures Valid() && written == old(written) + p
    {
      var rest := p;
      while rest != []
        invariant Valid() && written + rest == old(written) + p
        decreases |rest|
      {
        var take := if CHUNK_SIZE - |buf| < |rest| then CHUNK_SIZE - |buf| else |rest|;
        ChunksAppend(written, rest[..take]);
        written := written + rest[..take];
        buf := buf + rest[..take];
        rest := rest[take..];
        if |buf| == CHUNK_SIZE {
          assert buf[..CHUNK_SIZE] == buf;
          Flush();
        }
      }
    }

    method Finish()
      requires Valid()
      modifies this`out, this`buf
      ensures out == base + PackFrames(written)
    {
      Flush();
      out := out + [PayloadEnd];
    }
  }

  // ---- reading ----

  datatype Ending = Ended(rest: seq<Frame>) | CutShort

  /** The payload of the pack at the front of a stream of frames, and how it ends. */
  datatype Stream = Stream(bytes: seq<Byte>, end: Ending)

  function ReadFrames(frames: seq<Frame>): Stream
    decreases |frames|
  {
    if frames == [] then Stream([], CutShort)
    else match frames[0]
         case Payload(u) =>
           var s := ReadFrames(frames[1..]);
           Stream(u + s.bytes, s.end)
         case PayloadEnd => Stream([], Ended(frames[1..]))
         case _ => Stream([], CutShort)
  }

  lemma {:induction false} ReadChunks(s: seq<Byte>, rest: seq<Frame>)
    ensures ReadFrames(PackFrames(s) + rest) == Stream(s, Ended(rest))
    decreases |s|
  {
    if |s| >= CHUNK_SIZE {
      FirstChunk(s, rest);
      ReadOne(s[..CHUNK_SIZE], PackFrames(s[CHUNK_SIZE..]) + rest);
      ReadChunks(s[CHUNK_SIZE..], rest);
      assert s == s[..CHUNK_SIZE] + s[CHUNK_SIZE..];
    } else {
      ReadLast(s, rest);
    }
  }

  lemma FirstChunk(s: seq<Byte>, rest: seq<Frame>)
    requires |s| >= CHUNK_SIZE
    ensures PackFrames(s) + rest == [Payload(s[..CHUNK_SIZE])] + (PackFrames(s[CHUNK_SIZE..]) + rest)
  {
  }

  lemma ReadOne(u: seq<Byte>, f: seq<Frame>)
    ensures ReadFrames([Payload(u)] + f) == Stream(u + ReadFrames(f).bytes, ReadFrames(f).end)
  {
    assert ([Payload(u)] + f)[1..] == f;
  }

  lemma ReadLast(s: seq<Byte>, rest: seq<Frame>)
    requires |s| < CHUNK_SIZE
    ensures ReadFrames(PackFrames(s) + rest) == Stream(s, Ended(rest))
  {
    var end, f := [PayloadEnd] + rest, PackFrames(s) + rest;
    assert end[1..] == rest && ReadFrames(end) == Stream([], Ended(rest));
    if s == [] {
      assert f == end;
    } else {
      assert f[0] == Payload(s) && f[1..] == end && s + [] == s;
    }
  }

  datatype Status = Fine | Eof | Broken

  /** The reader over one pack's payload. */
  class PackReader {
    var frames: seq<Frame>
    var cur: seq<Byte>
    var done: bool
    var err: bool

    /** What is still to be read. */
    ghost function Left(): Stream
      reads this
    {
      if err then Stream(cur, CutShort)
      else if done then Stream(cur, Ended(frames))
      else var s := ReadFrames(frames); Stream(cur + s.bytes, s.end)
    }

    constructor (frames: seq<Frame>)
      ensures Left() == ReadFrames(frames)
    {
      this.frames, this.cur, this.done, this.err := frames, [], false, false;
    }

    /** Reads at most n bytes. Eof only at the terminator, Broken only on a stream cut short. */
    method Read(n: nat) returns (u: seq<Byte>, status: Status)
      requires n > 0
      modifies this
      ensures u <= old(Left()).bytes && |u| <= n
      ensures Left() == Stream(old(Left()).bytes[|u|..], old(Left()).end)
      ensures status.Fine? <==> u != []
      ensures status.Eof? ==> old(Left()).bytes == [] && old(Left()).end == Ended(frames)
      ensures status.Broken? ==> old(Left()).bytes == [] && old(Left()).end.CutShort?
    {
      while cur == []
        invariant Left() == old(Left())
        decreases |frames|, !done
      {
        if err { return [], Broken; }
        if done { return [], Eof; }
        if frames == [] {
          err := true;
          return [], Broken;
        }
        var m := frames[0];
        match m
        case Payload(p) =>
          assert [] + ReadFrames(frames).bytes == ReadFrames(frames).bytes;
          frames, cur := frames[1..], p;
        case PayloadEnd =>
          frames, done := frames[1..], true;
        case _ =>
          err := true;
          return [], Broken;
      }
      var k := if n < |cur| then n else |cur|;
      u, status := cur[..k], Fine;
      assert old(Left()).bytes[k..] == cur[k..] + old(Left()).bytes[|cur|..];
      cur := cur[k..];
    }
  }

  // ---- one pack, decoded ----

  /** The objects of a pack, whether it was whole, and the frames that follow it. */
  datatype Decoded = Decoded(items: seq<Item>, ok: bool, rest: seq<Frame>)

  /** The records read from buf and then rest, and whether the closing came before anything
      malformed and before the bytes ran out. */
  function Scan(c: Codec, buf: seq<Byte>, rest: seq<Byte>): (seq<Item>, bool)
    decreases |rest|, |buf|
  {
    var p := if buf == [] then Incomplete else c.parse(buf);
    match p
    case Incomplete => if rest == [] then ([], false) else Scan(c, buf + [rest[0]], rest[1..])
    case Record(item) => var r := Scan(c, [], rest); ([item] + r.0, r.1)
    case Closing => ([], true)
    case Malformed => ([], false)
  }

  function Records(c: Codec, bytes: seq<Byte>): (seq<Item>, bool) {
    if c.opening <= bytes then Scan(c, [], bytes[|c.opening|..]) else ([], false)
  }

  /** A pack counts only if its closing arrived and its frames ran through the terminator. */
  function Decode(c: Codec, frames: seq<Frame>): Decoded {
    var s := ReadFrames(frames);
    var r := Records(c, s.bytes);
    if r.1 && s.end.Ended? then Decoded(r.0, true, s.end.rest) else Decoded(r.0, false, [])
  }

  method NextByte(pr: PackReader) returns (b: Option<Byte>)
    modifies pr
    ensures b.Some? ==> old(pr.Left()).bytes != [] && b.value == old(pr.Left()).bytes[0]
    ensures b.Some? ==> pr.Left() == Stream(old(pr.Left()).bytes[1..], old(pr.Left()).end)
    ensures b.None? ==> old(pr.Left()).bytes == [] && pr.Left() == old(pr.Left())
  {
    var u, status := pr.Read(1);
    b := if status.Fine? then Some(u[0]) else None;
  }

  /** Reads past the opening of a pack. */
  method ReadOpening(c: Codec, pr: PackReader) returns (ok: bool)
    modifies pr
    ensures ok <==> c.opening <= old(pr.Left()).bytes
    ensures ok ==> pr.Left() == Stream(old(pr.Left()).bytes[|c.opening|..], old(pr.Left()).end)
  {
    for i := 0 to |c.opening|
      invariant i <= |old(pr.Left()).bytes| && c.opening[..i] == old(pr.Left()).bytes[..i]
      invariant pr.Left() == Stream(old(pr.Left()).bytes[i..], old(pr.Left()).end)
    {
      var b := NextByte(pr);
      if b.None? || b.value != c.opening[i] { return false; }
    }
    ok := true;
  }

  /** With these items read, what is left to read gives the rest of `all`. */
  ghost predicate Reading(c: Codec, items: seq<Item>, buf: seq<Byte>, bytes: seq<Byte>, all: (seq<Item>, bool)) {
    items + Scan(c, buf, bytes).0 == all.0 && Scan(c, buf, bytes).1 == all.1
  }

  lemma ReadingStep(c: Codec, items: seq<Item>, buf: seq<Byte>, bytes: seq<Byte>, all: (seq<Item>, bool))
    requires Reading(c, items, buf, bytes, all)
    ensures match if buf == [] then Incomplete else c.parse(buf)
            case Incomplete =>
              if bytes == [] then (items, false) == all else Reading(c, items, buf + [bytes[0]], bytes[1..], all)
            case Record(item) => Reading(c, items + [item], [], bytes, all)
            case Closing => (items, true) == all
            case Malformed => (items, false) == all
  {
    assert items + [] == items;
    if buf != [] && c.parse(buf).Record? {
      var item, more := c.parse(buf).item, Scan(c, [], bytes).0;
      assert items + ([item] + more) == items + [item] + more;
    }
  }

  /** Reads records up to the closing. */
  method ReadRecords(c: Codec, pr: PackReader) returns (items: seq<Item>, ok: bool)
    modifies pr
    ensures (items, ok) == Scan(c, [], old(pr.Left()).bytes) && pr.Left().end == old(pr.Left()).end
  {
    items := [];
    var buf: seq<Byte> := [];
    ghost var all := Scan(c, [], pr.Left().bytes);
    while true
      invariant pr.Left().end == old(pr.Left()).end
      invariant Reading(c, items, buf, pr.Left().bytes, all)
      decreases |pr.Left().bytes|, |buf|
    {
      var p := if buf == [] then Incomplete else c.parse(buf);
      ReadingStep(c, items, buf, pr.Left().bytes, all);
      match p {
        case Incomplete =>
          var b := NextByte(pr);
          if b.None? { return items, false; }
          buf := buf + [b.value];
        case Record(item) =>
          items, buf := items + [item], [];
        case Closing => return items, true;
        case Malformed => return items, false;
      }
    }
  }

  /** Drains the reader through the terminator, so that the channel is frame-aligned. */
  method Drain(pr: PackReader) returns (rest: Option<seq<Frame>>)
    modifies pr
    ensures rest == match old(pr.Left()).end { case Ended(frames) => Some(frames) case CutShort => None }
  {
    var status := Fine;
    while status.Fine?
      invariant pr.Left().end == old(pr.Left()).end
      invariant status.Eof? ==> old(pr.Left()).end == Ended(pr.frames)
      invariant status.Broken? ==> old(pr.Left()).end.CutShort?
      decreases |pr.Left().bytes|, status.Fine?
    {
      var _, st := pr.Read(CHUNK_SIZE);
      status := st;
    }
    rest := if status.Eof? then Some(pr.frames) else None;
  }

  method DecodePack(c: Codec, frames: seq<Frame>) returns (d: Decoded)
    ensures d == Decode(c, frames)
  {
    var pr := new PackReader(frames);
    var begun := ReadOpening(c, pr);
    if !begun { return Decoded([], false, []); }
    var items, ok := ReadRecords(c, pr);
    if !ok { return Decoded(items, false, []); }
    var rest := Drain(pr);
    d := if rest.Some? then Decoded(items, true, rest.value) else Decoded(items, false, []);
  }

  // ---- what the sender puts in a pack ----

  function RecordBytes(c: Codec, ks: seq<Key>): seq<Byte> {
    if ks == [] then [] else c.record(ItemOf(ks[0])) + RecordBytes(c, ks[1..])
  }

  function PackBytes(c: Codec, ks: seq<Key>): seq<Byte> { c.opening + (RecordBytes(c, ks) + c.closing) }

  function ItemsOf(ks: seq<Key>): (r: seq<Item>)
    ensures |r| == |ks| && forall i :: 0 <= i < |r| ==> r[i] == ItemOf(ks[i])
  {
    if ks == [] then [] else [ItemOf(ks[0])] + ItemsOf(ks[1..])
  }

  /** Reading on from the middle of one token gets to its end, wherever the frames were cut. */
  lemma {:induction false} ScanToken(c: Codec, token: seq<Byte>, p: Parsed, i: nat, rest: seq<Byte>)
    requires ReadsAs(c, token, p) && i <= |token|
    ensures Scan(c, token[..i], token[i..] + rest) == Scan(c, token, rest)
    decreases |token| - i
  {
    if i == |token| {
      assert token[..i] == token && token[i..] + rest == rest;
    } else {
      assert (token[i..] + rest)[0] == token[i] && (token[i..] + rest)[1..] == token[i + 1..] + rest;
      assert token[..i] + [token[i]] == token[..i + 1];
      ScanToken(c, token, p, i + 1, rest);
    }
  }

  lemma {:induction false} RecordsOfPack(c: Codec, ks: seq<Key>, held: set<Key>)
    requires Good(c, held) && forall k :: k in ks ==> k in held
    ensures Scan(c, [], RecordBytes(c, ks) + c.closing) == (ItemsOf(ks), true)
    decreases |ks|
  {
    if ks == [] {
      assert [] + c.closing == c.closing + [] == c.closing && c.closing[..0] == [] && c.closing[0..] == c.closing;
      ScanToken(c, c.closing, Closing, 0, []);
    } else {
      var item := ItemOf(ks[0]);
      var token, rest := c.record(item), RecordBytes(c, ks[1..]) + c.closing;
      assert RecordBytes(c, ks) + c.closing == token + rest && token[..0] == [] && token[0..] == token;
      assert ReadsAs(c, token, Record(item));
      ScanToken(c, token, Record(item), 0, rest);
      RecordsOfPack(c, ks[1..], held);
    }
  }

  /** The bytes t read as p, and no part of them reads as anything yet. */
  ghost predicate Token(c: Codec, t: seq<Byte>, p: Parsed) {
    t != [] && c.parse(t) == p && forall i :: 0 < i < |t| ==> c.parse(t[..i]).Incomplete?
  }

  function Joined(tokens: seq<seq<Byte>>): seq<Byte> { if tokens == [] then [] else tokens[0] + Joined(tokens[1..]) }

  /** `bytes` begin with one token for each of the items, in order. */
  ghost predicate Spells(c: Codec, bytes: seq<Byte>, items: seq<Item>, tokens: seq<seq<Byte>>, tail: seq<Byte>) {
    && bytes == Joined(tokens) + tail && |tokens| == |items|
    && (forall i :: 0 <= i < |items| ==> Token(c, tokens[i], Record(items[i])))
  }

  lemma SpellsMore(c: Codec, t: seq<Byte>, item: Item, bytes: seq<Byte>, items: seq<Item>, tokens: seq<seq<Byte>>,
                   tail: seq<Byte>)
    requires Token(c, t, Record(item)) && Spells(c, bytes, items, tokens, tail)
    ensures Spells(c, t + bytes, [item] + items, [t] + tokens, tail)
  {
    assert ([t] + tokens)[1..] == tokens;
    assert t + (Joined(tokens) + tail) == t + Joined(tokens) + tail;
    forall i | 0 <= i < |[item] + items| ensures Token(c, ([t] + tokens)[i], Record(([item] + items)[i])) {
      assert i > 0 ==> Token(c, tokens[i - 1], Record(items[i - 1]));
    }
  }

  /** What is read was written: the bytes begin with a record for every item read, in order, and the
      reading succeeds exactly if a closing follows them. */
  lemma {:induction false} ScanSound(c: Codec, buf: seq<Byte>, rest: seq<Byte>)
    returns (tokens: seq<seq<Byte>>, tail: seq<Byte>)
    requires forall i :: 0 < i < |buf| ==> c.parse(buf[..i]).Incomplete?
    ensures Spells(c, buf + rest, Scan(c, buf, rest).0, tokens, tail)
    ensures Scan(c, buf, rest).1 <==> exists j :: 0 < j <= |tail| && Token(c, tail[..j], Closing)
    decreases |rest|, |buf|
  {
    var p := if buf == [] then Incomplete else c.parse(buf);
    match p
    case Incomplete =>
      if rest == [] {
        tokens, tail := [], buf;
        assert buf + rest == [] + buf && buf[..|buf|] == buf;
      } else {
        var more := buf + [rest[0]];
        forall i | 0 < i < |more| ensures c.parse(more[..i]).Incomplete? {
          assert more[..i] == buf[..i] && buf[..|buf|] == buf;
        }
        tokens, tail := ScanSound(c, more, rest[1..]);
        assert more + rest[1..] == buf + rest;
      }
    case Record(item) =>
      tokens, tail := ScanSound(c, [], rest);
      assert [] + rest == rest;
      SpellsMore(c, buf, item, rest, Scan(c, [], rest).0, tokens, tail);
      tokens := [buf] + tokens;
    case _ =>
      tokens, tail := [], buf + rest;
      assert Joined([]) + tail == tail;
      OneToken(c, buf, rest);
  }

  /** Only one beginning of the bytes is a token. */
  lemma OneToken(c: Codec, buf: seq<Byte>, rest: seq<Byte>)
    requires buf != [] && (c.parse(buf).Closing? || c.parse(buf).Malformed?)
    requires forall i :: 0 < i < |buf| ==> c.parse(buf[..i]).Incomplete?
    ensures (exists j :: 0 < j <= |buf + rest| && Token(c, (buf + rest)[..j], Closing)) <==> c.parse(buf).Closing?
  {
    var all := buf + rest;
    assert all[..|buf|] == buf;
    forall i | 0 < i < |buf| ensures all[..i] == buf[..i] {}
    forall j | |buf| < j <= |all| ensures !Token(c, all[..j], Closing) { assert all[..j][..|buf|] == buf; }
    if c.parse(buf).Closing? { assert Token(c, all[..|buf|], Closing); }
  }

  /** A finished pack decodes to exactly the objects put into it, however its records fall across
      the frames, and leaves the stream at the frame after its terminator. */
  lemma PackRoundTrip(c: Codec, ks: seq<Key>, held: set<Key>, rest: seq<Frame>)
    requires Good(c, held) && forall k :: k in ks ==> k in held
    ensures Decode(c, PackFrames(PackBytes(c, ks)) + rest) == Decoded(ItemsOf(ks), true, rest)
  {
    ReadChunks(PackBytes(c, ks), rest);
    PackReads(c, ks, held);
  }

  lemma PackReads(c: Codec, ks: seq<Key>, held: set<Key>)
    requires Good(c, held) && forall k :: k in ks ==> k in held
    ensures Records(c, PackBytes(c, ks)) == (ItemsOf(ks), true)
  {
    var body := RecordBytes(c, ks) + c.closing;
    assert (c.opening + body)[|c.opening|..] == body && c.opening <= c.opening + body;
    RecordsOfPack(c, ks, held);
  }

  /** Frame i terminates the pack at the front of f. */
  ghost predicate Terminates(f: seq<Frame>, i: nat) {
    i < |f| && f[i].PayloadEnd? && forall j :: 0 <= j < i ==> f[j].Payload?
  }

  /** A pack runs to its end exactly when nothing but payload comes before a terminator. */
  lemma {:induction false} EndsIffTerminated(f: seq<Frame>)
    ensures ReadFrames(f).end.Ended? <==> exists i: nat :: Terminates(f, i)
    decreases |f|
  {
    if f != [] && f[0].Payload? {
      EndsIffTerminated(f[1..]);
      if i: nat :| Terminates(f[1..], i) { assert Terminates(f, i + 1); }
      if i: nat :| Terminates(f, i) { assert Terminates(f[1..], i - 1); }
    } else if f != [] && f[0].PayloadEnd? {
      assert Terminates(f, 0);
    }
  }

  /** A finished pack cut anywhere before its terminator, and followed by nothing or by any frame
      but payload or a terminator, is never taken as a success. */
  lemma CutPackFails(c: Codec, s: seq<Byte>, n: nat, tail: seq<Frame>)
    requires n < |PackFrames(s)|
    requires tail == [] || !(tail[0].Payload? || tail[0].PayloadEnd?)
    ensures !Decode(c, PackFrames(s)[..n] + tail).ok
  {
    var f := PackFrames(s)[..n] + tail;
    AllPayload(s);
    EndsIffTerminated(f);
    forall i: nat ensures !Terminates(f, i) {
      if i < n {
        assert f[i] == PackFrames(s)[i];
      } else if i < |f| {
        assert i == n ==> f[i] == tail[0];
        assert i > n ==> f[n] == tail[0];
      }
    }
  }

  /** A pack is payload up to its terminator: one mebibyte in every frame but the last, which holds
      what is left. */
  lemma {:induction false} AllPayload(s: seq<Byte>)
    ensures forall i :: 0 <= i < |PackFrames(s)| - 1 ==>
              PackFrames(s)[i].Payload? && 0 < |PackFrames(s)[i].data| <= 1048576
    ensures forall i :: 0 <= i < |PackFrames(s)| - 2 ==> |PackFrames(s)[i].data| == 1048576
    ensures forall i :: 0 <= i < |FullChunks(s)| ==> FullChunks(s)[i].Payload?
    decreases |s|
  {
    if |s| >= CHUNK_SIZE {
      AllPayload(s[CHUNK_SIZE..]);
      assert PackFrames(s) == [Payload(s[..CHUNK_SIZE])] + PackFrames(s[CHUNK_SIZE..]);
    }
  }
}
