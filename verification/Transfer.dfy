/** The two halves of a transfer joined up: Send answering want rounds, Receive
    driving them over any number of channels to any peers.
 */
module Transfer {
  import opened Wrappers
  import opened Objects
  import opened Pack
  import opened WantSync

  // ---- the sending half ----

  function Dedupe(ks: seq<Key>, seen: set<Key>): seq<Key>
    decreases |ks|
  {
    if ks == [] then []
    else if ks[0] in seen then Dedupe(ks[1..], seen)
    else [ks[0]] + Dedupe(ks[1..], seen + {ks[0]})
  }

  method DedupeKeys(ks: seq<Key>) returns (out: seq<Key>)
    ensures out == Dedupe(ks, {})
  {
    out := [];
    var seen := {};
    for i := 0 to |ks|
      invariant out + Dedupe(ks[i..], seen) == Dedupe(ks, {})
    {
      assert ks[i..][1..] == ks[i + 1..];
      if ks[i] in seen { continue; }
      seen, out := seen + {ks[i]}, out + [ks[i]];
    }
  }

  lemma {:induction false} DedupeMeaning(ks: seq<Key>, seen: set<Key>)
    ensures var d := Dedupe(ks, seen);
            && Distinct(d)
            && (forall k :: k in d <==> k in ks && k !in seen)
            && (Distinct(ks) && (forall k :: k in ks ==> k !in seen) ==> d == ks)
    decreases |ks|
  {
    if ks != [] {
      assert forall x :: x in ks <==> x == ks[0] || x in ks[1..];
      if ks[0] in seen {
        DedupeMeaning(ks[1..], seen);
      } else {
        DedupeMeaning(ks[1..], seen + {ks[0]});
        var rest := Dedupe(ks[1..], seen + {ks[0]});
        assert forall x :: x in [ks[0]] + rest <==> x == ks[0] || x in rest;
        if Distinct(ks) {
          forall k | k in ks[1..] ensures k != ks[0] {}
        }
      }
    }
  }

  /** A permutation: how the sender's store sorts keys by location. */
  ghost predicate Permutes(order: seq<Key> -> seq<Key>) {
    forall s :: multiset(order(s)) == multiset(s)
  }

  /** A sender: what it holds, how its store sorts keys by location, and its pack format. */
  datatype Sender = Sender(source: set<Key>, order: seq<Key> -> seq<Key>, codec: Codec)

  /** It sends what it is asked for, in a format that can be read back. */
  ghost predicate Able(s: Sender) { Permutes(s.order) && Good(s.codec, s.source) }

  /** The leading keys that the sender does hold. */
  function HeldPrefix(ks: seq<Key>, source: set<Key>): seq<Key> {
    if ks == [] || ks[0] !in source then [] else [ks[0]] + HeldPrefix(ks[1..], source)
  }

  datatype Session = Open | Done | Aborted

  datatype Sending = Sending(out: seq<Frame>, session: Session)

  /** The answer to one frame: a pack of the requested objects; a missing object aborts the
      pack without its terminator and reports an error instead. */
  function Answer(s: Sender, f: Frame): Sending {
    match f
    case Wants(ks) =>
      if ks == [] then Sending([], Done)
      else
        var todo := s.order(Dedupe(ks, {}));
        var held := HeldPrefix(todo, s.source);
        if held == todo then Sending(PackFrames(PackBytes(s.codec, todo)), Open)
        else Sending(FullChunks(s.codec.opening + RecordBytes(s.codec, held)) + [Error], Aborted)
    case _ => Sending([], Aborted)
  }

  /** Everything a sender writes in response to a history of frames, and where it then stands. */
  function SendRun(s: Sender, history: seq<Frame>): Sending
    decreases |history|
  {
    if history == [] then Sending([], Open)
    else
      var before := SendRun(s, history[..|history| - 1]);
      if !before.session.Open? then before
      else
        var a := Answer(s, history[|history| - 1]);
        Sending(before.out + a.out, a.session)
  }

  lemma {:induction false} BytesAppend(c: Codec, a: seq<Key>, b: seq<Key>)
    ensures RecordBytes(c, a + b) == RecordBytes(c, a) + RecordBytes(c, b)
    decreases |a|
  {
    if a == [] {
      assert a + b == b;
    } else {
      assert (a + b)[1..] == a[1..] + b;
      BytesAppend(c, a[1..], b);
    }
  }

  lemma BytesSnoc(c: Codec, ks: seq<Key>, i: nat)
    requires i < |ks|
    ensures c.opening + RecordBytes(c, ks[..i + 1]) ==
            c.opening + RecordBytes(c, ks[..i]) + c.record(ItemOf(ks[i]))
  {
    assert ks[..i + 1] == ks[..i] + [ks[i]];
    BytesAppend(c, ks[..i], [ks[i]]);
    assert RecordBytes(c, [ks[i]]) == c.record(ItemOf(ks[i])) + [];
    Associates(c.opening, RecordBytes(c, ks[..i]), c.record(ItemOf(ks[i])));
  }

  lemma HeldStep(todo: seq<Key>, source: set<Key>, i: nat)
    requires i < |todo| && HeldPrefix(todo, source) == todo[..i] + HeldPrefix(todo[i..], source)
    ensures todo[i] !in source ==> HeldPrefix(todo, source) == todo[..i] && HeldPrefix(todo, source) != todo
    ensures todo[i] in source ==> HeldPrefix(todo, source) == todo[..i + 1] + HeldPrefix(todo[i + 1..], source)
  {
    var done, left := todo[..i], todo[i..];
    assert left[0] == todo[i] && left[1..] == todo[i + 1..];
    if todo[i] !in source {
      assert HeldPrefix(left, source) == [];
      assert |done + []| == i;
    } else {
      var more := HeldPrefix(left[1..], source);
      assert HeldPrefix(left, source) == [todo[i]] + more;
      assert done + ([todo[i]] + more) == done + [todo[i]] + more;
      assert todo[..i + 1] == done + [todo[i]];
    }
  }

  /** SendPackRecords over the records of `todo`. */
  method SendPack(out: seq<Frame>, todo: seq<Key>, source: set<Key>, c: Codec) returns (r: seq<Frame>, ok: bool)
    ensures ok <==> HeldPrefix(todo, source) == todo
    ensures ok ==> r == out + PackFrames(PackBytes(c, todo))
    ensures !ok ==> r == out + FullChunks(c.opening + RecordBytes(c, HeldPrefix(todo, source)))
  {
    var cw := new ChunkWriter(out);
    cw.Write(c.opening);
    for i := 0 to |todo|
      invariant fresh(cw) && cw.Valid() && cw.base == out && cw.written == c.opening + RecordBytes(c, todo[..i])
      invariant HeldPrefix(todo, source) == todo[..i] + HeldPrefix(todo[i..], source)
    {
      HeldStep(todo, source, i);
      if todo[i] !in source { return cw.out, false; }
      BytesSnoc(c, todo, i);
      cw.Write(c.record(ItemOf(todo[i])));
    }
    assert todo[..|todo|] == todo;
    cw.Write(c.closing);
    Associates(c.opening, RecordBytes(c, todo), c.closing);
    cw.Finish();
    r, ok := cw.out, true;
  }

  /** One frame of the Send loop. */
  method SendOne(out: seq<Frame>, m: Frame, s: Sender) returns (out': seq<Frame>, session: Session)
    ensures out' == out + Answer(s, m).out && session == Answer(s, m).session
  {
    match m
    case Wants(ks) =>
      if ks == [] { return out, Done; }
      var deduped := DedupeKeys(ks);
      var r, ok := SendPack(out, s.order(deduped), s.source, s.codec);
      if ok { return r, Open; }
      return r + [Error], Aborted;
    case _ =>
      return out, Aborted;
  }

  /** The Send loop, over all frames the peer will ever write. */
  method Send(inbox: seq<Frame>, s: Sender) returns (out: seq<Frame>, session: Session)
    ensures out == SendRun(s, inbox).out && session == SendRun(s, inbox).session
  {
    out := [];
    for i := 0 to |inbox|
      invariant Sending(out, Open) == SendRun(s, inbox[..i])
    {
      assert inbox[..i + 1][..i] == inbox[..i];
      out, session := SendOne(out, inbox[i], s);
      if !session.Open? {
        SendRunStops(s, inbox, i + 1);
        return;
      }
    }
    assert inbox[..|inbox|] == inbox;
    session := Open;
  }

  lemma {:induction false} SendRunStops(s: Sender, history: seq<Frame>, i: nat)
    requires i <= |history| && !SendRun(s, history[..i]).session.Open?
    ensures SendRun(s, history) == SendRun(s, history[..i])
    decreases |history|
  {
    if i == |history| {
      assert history[..i] == history;
    } else {
      assert history[..|history| - 1][..i] == history[..i];
      SendRunStops(s, history[..|history| - 1], i);
    }
  }

  // ---- channels ----

  /** One stream to a peer. `peer` says what the peer sends after each frame it receives,
      given all frames so far; nothing is assumed about it. `codec` is how packs are read. */
  datatype Chan = Chan(inbox: seq<Frame>, outbox: seq<Frame>, peer: seq<Frame> -> seq<Frame>, codec: Codec)

  function Post(ch: Chan, f: Frame): Chan {
    var sent := ch.outbox + [f];
    ch.(inbox := ch.inbox + ch.peer(sent), outbox := sent)
  }

  /** What an honest sender sends after the last frame of a history. */
  function Reply(s: Sender, history: seq<Frame>): seq<Frame> {
    if history == [] || !SendRun(s, history[..|history| - 1]).session.Open? then []
    else Answer(s, history[|history| - 1]).out
  }

  ghost predicate HonestPeer(ch: Chan, s: Sender) {
    ch.codec == s.codec && forall h :: ch.peer(h) == Reply(s, h)
  }

  /** Between rounds: nothing unread, and the sender is waiting for the next wants. */
  ghost predicate Aligned(ch: Chan, s: Sender) {
    HonestPeer(ch, s) && ch.inbox == [] && SendRun(s, ch.outbox).session.Open?
  }

  /** Everything an honest peer sends over a history, frame by frame. */
  function Replies(s: Sender, history: seq<Frame>): seq<Frame>
    decreases |history|
  {
    if history == [] then [] else Replies(s, history[..|history| - 1]) + Reply(s, history)
  }

  /** The replies over a whole session are what Send writes. */
  lemma {:induction false} RepliesAreSend(s: Sender, history: seq<Frame>)
    ensures Replies(s, history) == SendRun(s, history).out
    decreases |history|
  {
    if history != [] { RepliesAreSend(s, history[..|history| - 1]); }
  }

  lemma {:induction false} AllHeld(ks: seq<Key>, source: set<Key>)
    requires forall k :: k in ks ==> k in source
    ensures HeldPrefix(ks, source) == ks
    decreases |ks|
  {
    if ks != [] { AllHeld(ks[1..], source); }
  }

  /** The pack that answers wants the sender can serve. */
  lemma HonestAnswer(shard: seq<Key>, s: Sender)
    requires Able(s) && shard != [] && Distinct(shard) && forall k :: k in shard ==> k in s.source
    ensures Answer(s, Wants(shard)) == Sending(PackFrames(PackBytes(s.codec, s.order(shard))), Open)
    ensures forall k :: k in s.order(shard) ==> k in s.source
  {
    DedupeMeaning(shard, {});
    var todo := s.order(shard);
    forall k | k in todo ensures k in s.source {
      assert k in multiset(todo) && k in multiset(shard);
    }
    AllHeld(todo, s.source);
  }

  lemma {:induction false} HeldAll(ks: seq<Key>, source: set<Key>)
    ensures HeldPrefix(ks, source) == ks <==> forall k :: k in ks ==> k in source
    decreases |ks|
  {
    if ks != [] {
      HeldAll(ks[1..], source);
      assert forall k :: k in ks <==> k == ks[0] || k in ks[1..];
      if ks[0] in source { assert ([ks[0]] + HeldPrefix(ks[1..], source))[1..] == HeldPrefix(ks[1..], source); }
    }
  }

  /** What a sender does with a frame. An empty request ends the session, anything that is not a request
      aborts it, and both are answered by nothing. A request for keys that are all held is answered by
      one pack, from which exactly these objects are read, each once, and the session goes on. Any
      other request is answered by frames that are read as a failure, the last of them an error, and the
      session is aborted. */
  lemma AnswerMeans(s: Sender, f: Frame)
    requires Able(s)
    ensures !f.Wants? ==> Answer(s, f) == Sending([], Aborted)
    ensures f == Wants([]) ==> Answer(s, f) == Sending([], Done)
    ensures f.Wants? && f.keys != [] ==>
              if forall k :: k in f.keys ==> k in s.source then
                && Answer(s, f).session.Open?
                && var d := Decode(s.codec, Answer(s, f).out);
                   d.ok && d.rest == [] && Distinct(KeysOf(d.items)) &&
                   (forall k :: k in KeysOf(d.items) <==> k in f.keys) && forall it :: it in d.items ==> Verified(it)
              else
                && Answer(s, f).session.Aborted? && Answer(s, f).out != []
                && Answer(s, f).out[|Answer(s, f).out| - 1] == Error && !Decode(s.codec, Answer(s, f).out).ok
  {
    if f.Wants? && f.keys != [] {
      var ks := Dedupe(f.keys, {});
      var todo := s.order(ks);
      DedupeMeaning(f.keys, {});
      SameKeys(todo, ks);
      HeldAll(todo, s.source);
      if forall k :: k in f.keys ==> k in s.source {
        PackArrives(s, todo, PackFrames(PackBytes(s.codec, todo)));
        KeysOfItems(todo);
      } else {
        CutAnswer(s.codec, s.codec.opening + RecordBytes(s.codec, HeldPrefix(todo, s.source)));
      }
    }
  }

  lemma CutAnswer(c: Codec, bytes: seq<Byte>)
    ensures !Decode(c, FullChunks(bytes) + [Error]).ok
  {
    var f := FullChunks(bytes) + [Error];
    AllPayload(bytes);
    EndsIffTerminated(f);
    forall i: nat ensures !Terminates(f, i) {}
  }

  lemma SameKeys(a: seq<Key>, b: seq<Key>)
    requires multiset(a) == multiset(b) && Distinct(b)
    ensures Distinct(a) && forall k :: k in a <==> k in b
  {
    forall k ensures k in a <==> k in b { assert k in a <==> k in multiset(a); }
    forall k ensures multiset(a)[k] <= 1 { DistinctCounts(b, k); }
    CountsDistinct(a);
  }

  lemma {:induction false} KeysOfItems(ks: seq<Key>)
    ensures KeysOf(ItemsOf(ks)) == ks && forall it :: it in ItemsOf(ks) ==> Verified(it)
    decreases |ks|
  {
    if ks != [] {
      KeysOfItems(ks[1..]);
      assert ItemsOf(ks)[1..] == ItemsOf(ks[1..]);
    }
  }

  /** One round on one honest channel: exactly the requested objects arrive, and the channel
      is frame-aligned again. */
  lemma HonestRound(ch: Chan, shard: seq<Key>, s: Sender)
    requires Aligned(ch, s) && Able(s)
    requires shard != [] && Distinct(shard) && forall k :: k in shard ==> k in s.source
    ensures var ch' := Post(ch, Wants(shard));
            var d := Decode(ch'.codec, ch'.inbox);
            && d.ok && d.rest == [] && d.items == ItemsOf(s.order(shard))
            && Aligned(ch'.(inbox := d.rest), s)
  {
    var todo := s.order(shard);
    HonestAnswer(shard, s);
    var out := PackFrames(PackBytes(s.codec, todo));
    AnswerArrives(ch, Wants(shard), s, out);
    PackArrives(s, todo, out);
  }

  /** What an idle honest sender answers is what arrives, and it is idle again. */
  lemma AnswerArrives(ch: Chan, f: Frame, s: Sender, out: seq<Frame>)
    requires Aligned(ch, s) && Answer(s, f) == Sending(out, Open)
    ensures Post(ch, f).inbox == out && Aligned(Post(ch, f).(inbox := []), s)
  {
    var h := ch.outbox + [f];
    assert h[..|h| - 1] == ch.outbox && h[|h| - 1] == f;
  }

  lemma PackArrives(s: Sender, todo: seq<Key>, frames: seq<Frame>)
    requires Able(s) && frames == PackFrames(PackBytes(s.codec, todo)) && forall k :: k in todo ==> k in s.source
    ensures Decode(s.codec, frames) == Decoded(ItemsOf(todo), true, [])
  {
    PackRoundTrip(s.codec, todo, s.source, []);
    assert frames + [] == frames;
  }

  /** The frames of a finished session: want rounds, then one empty TWants, which is last. */
  ghost predicate Finished(before: seq<Frame>, after: seq<Frame>) {
    |before| < |after| && OnlyRounds(before, after[..|after| - 1]) && after[|after| - 1] == Wants([])
  }

  ghost predicate Rounds(mid: seq<Frame>) {
    forall i :: 0 <= i < |mid| ==> mid[i].Wants? && 0 < |mid[i].keys| <= 32768
  }

  // ---- the receiving half: why it is right ----

  /** Every path down from k stays inside the store until it ends or meets the frontier. */
  ghost predicate HeldBy(k: Key, present: set<Key>, frontier: seq<Key>)
    decreases k
  {
    k in frontier || (k in present && forall c :: c in k.data.kids ==> HeldBy(c, present, frontier))
  }

  lemma {:induction false} HeldIsComplete(k: Key, present: set<Key>, frontier: seq<Key>)
    requires HeldBy(k, present, frontier) && forall f :: f in frontier ==> Complete(f, present)
    ensures Complete(k, present)
    decreases k
  {
    if k !in frontier {
      forall c | c in k.data.kids ensures Complete(c, present) { HeldIsComplete(c, present, frontier); }
    }
  }

  lemma {:induction false} CompleteIsHeld(k: Key, present: set<Key>, frontier: seq<Key>)
    requires Complete(k, present)
    ensures HeldBy(k, present, frontier)
    decreases k
  {
    forall c | c in k.data.kids ensures HeldBy(c, present, frontier) { CompleteIsHeld(c, present, frontier); }
  }

  lemma {:induction false} HeldGrows(k: Key, present: set<Key>, more: set<Key>, frontier: seq<Key>)
    requires HeldBy(k, present, frontier) && present <= more
    ensures HeldBy(k, more, frontier)
    decreases k
  {
    if k !in frontier {
      forall c | c in k.data.kids ensures HeldBy(c, more, frontier) { HeldGrows(c, present, more, frontier); }
    }
  }

  /** A round keeps the root held: each old frontier key is complete, or is carried over, or
      arrived and put its children on the new frontier. */
  lemma {:induction false} RoundKeepsHeld(k: Key, present: set<Key>, frontier: seq<Key>, present': set<Key>,
                                          frontier': seq<Key>)
    requires HeldBy(k, present, frontier) && present <= present'
    requires forall f :: f in frontier ==>
               || Complete(f, present)
               || f in frontier'
               || (f in present' && forall c :: c in f.data.kids ==> c in frontier')
    ensures HeldBy(k, present', frontier')
    decreases k
  {
    if k in frontier {
      if Complete(k, present) {
        CompleteGrows(k, present, present');
        CompleteIsHeld(k, present', frontier');
      }
    } else {
      forall c | c in k.data.kids ensures HeldBy(c, present', frontier') {
        RoundKeepsHeld(c, present, frontier, present', frontier');
      }
    }
  }

  function KeysOf(items: seq<Item>): seq<Key> {
    seq(|items|, i requires 0 <= i < |items| => items[i].key)
  }

  function KidsOf(items: seq<Item>): seq<Key> {
    if items == [] then [] else items[0].data.kids + KidsOf(items[1..])
  }

  lemma {:induction false} KidsOfHas(items: seq<Item>, i: nat, c: Key)
    requires i < |items| && c in items[i].data.kids
    ensures c in KidsOf(items)
    decreases |items|
  {
    if i > 0 { KidsOfHas(items[1..], i - 1, c); }
  }

  lemma {:induction false} KidsOfFrom(items: seq<Item>, c: Key) returns (i: nat)
    requires c in KidsOf(items)
    ensures i < |items| && c in items[i].data.kids
    decreases |items|
  {
    if c in items[0].data.kids { return 0; }
    var j := KidsOfFrom(items[1..], c);
    i := j + 1;
  }

  /** The children of verified objects weigh what the objects weigh, less one each. */
  lemma {:induction false} KidsWeighLess(items: seq<Item>)
    requires forall i :: 0 <= i < |items| ==> Verified(items[i])
    ensures Sizes(KidsOf(items)) + |items| == Sizes(KeysOf(items))
    decreases |items|
  {
    if items != [] {
      KidsWeighLess(items[1..]);
      SizesAppend(items[0].data.kids, KidsOf(items[1..]));
      assert KeysOf(items)[1..] == KeysOf(items[1..]);
    }
  }

  lemma {:induction false} KeysPermute(a: seq<Item>, b: seq<Item>)
    requires multiset(a) == multiset(b)
    ensures multiset(KeysOf(a)) == multiset(KeysOf(b))
    decreases |a|
  {
    if a == [] {
      assert |multiset(b)| == 0;
    } else {
      HeadTail(a);
      var p, q := RemoveOne(b, a[0]);
      KeysPermute(a[1..], p + q);
      KeysSplit(p, a[0], q);
      KeysSplit([], a[0], a[1..]);
      assert [] + [a[0]] + a[1..] == a && [] + a[1..] == a[1..];
    }
  }

  lemma {:induction false} KeysSplit(p: seq<Item>, x: Item, q: seq<Item>)
    ensures multiset(KeysOf(p + [x] + q)) == multiset(KeysOf(p + q)) + multiset{x.key}
  {
    assert KeysOf(p + [x] + q) == KeysOf(p) + [x.key] + KeysOf(q);
    assert KeysOf(p + q) == KeysOf(p) + KeysOf(q);
  }

  // ---- one round over all channels ----

  /** A channel after its shard of the round was posted; an empty shard sends no frame. */
  function Posted(ch: Chan, shard: seq<Key>): Chan {
    if shard == [] then ch else Post(ch, Wants(shard))
  }

  function PackItems(ch: Chan, shard: seq<Key>): seq<Item> {
    if shard == [] then [] else Decode(ch.codec, ch.inbox).items
  }

  predicate PackOk(ch: Chan, shard: seq<Key>) { shard == [] || Decode(ch.codec, ch.inbox).ok }

  /** A channel after its pack was read. */
  function PackRead(ch: Chan, shard: seq<Key>): Chan {
    if shard == [] then ch else ch.(inbox := Decode(ch.codec, ch.inbox).rest)
  }

  function AllItems(chans: seq<Chan>, shards: seq<seq<Key>>): seq<Item>
    requires |chans| == |shards|
  {
    if chans == [] then [] else PackItems(chans[0], shards[0]) + AllItems(chans[1..], shards[1..])
  }

  /** Posts each non-empty shard to its channel. */
  method PostWants(chans: seq<Chan>, shards: seq<seq<Key>>, flaky: bool) returns (sent: bool, out: seq<Chan>)
    requires |chans| == |shards|
    ensures !sent ==> flaky
    ensures sent ==> |out| == |chans|
    ensures sent ==> forall i :: 0 <= i < |out| ==> out[i] == Posted(chans[i], shards[i])
  {
    out := [];
    for i := 0 to |chans|
      invariant |out| == i
      invariant forall j :: 0 <= j < i ==> out[j] == Posted(chans[j], shards[j])
    {
      var trouble: bool := *;
      if shards[i] == [] {
        out := out + [chans[i]];
      } else if flaky && trouble {
        return false, out;
      } else {
        out := out + [Post(chans[i], Wants(shards[i]))];
      }
    }
    sent := true;
  }

  /** Decodes the pack of one active channel. */
  method ReadPack(ch: Chan, shard: seq<Key>) returns (ok: bool, out: Chan, items: seq<Item>)
    ensures items == PackItems(ch, shard) && ok == PackOk(ch, shard)
    ensures ok ==> out == PackRead(ch, shard)
  {
    if shard == [] { return true, ch, []; }
    var d := DecodePack(ch.codec, ch.inbox);
    return d.ok, ch.(inbox := d.rest), d.items;
  }

  /** Channel i went through its round without error, from chans[i] to out[i]. */
  ghost predicate RoundOk(chans: seq<Chan>, shards: seq<seq<Key>>, out: seq<Chan>, i: nat)
    requires i < |chans| == |shards| && i < |out|
  {
    PackOk(chans[i], shards[i]) && out[i] == PackRead(chans[i], shards[i])
  }

  lemma RoundOkSnoc(chans: seq<Chan>, shards: seq<seq<Key>>, out: seq<Chan>, ch: Chan)
    requires |out| < |chans| == |shards| && forall j :: 0 <= j < |out| ==> RoundOk(chans, shards, out, j)
    requires PackOk(chans[|out|], shards[|out|]) && ch == PackRead(chans[|out|], shards[|out|])
    ensures forall j :: 0 <= j <= |out| ==> RoundOk(chans, shards, out + [ch], j)
  {
    forall j | 0 <= j < |out| ensures RoundOk(chans, shards, out + [ch], j) {
      assert RoundOk(chans, shards, out, j);
    }
  }

  lemma AllItemsStep(chans: seq<Chan>, shards: seq<seq<Key>>, i: nat, items: seq<Item>)
    requires i < |chans| == |shards| && items + AllItems(chans[i..], shards[i..]) == AllItems(chans, shards)
    ensures items + PackItems(chans[i], shards[i]) + AllItems(chans[i + 1..], shards[i + 1..]) ==
            AllItems(chans, shards)
  {
    AllItemsFrom(chans, shards, i);
    Associates(items, PackItems(chans[i], shards[i]), AllItems(chans[i + 1..], shards[i + 1..]));
  }

  lemma AllItemsFrom(chans: seq<Chan>, shards: seq<seq<Key>>, i: nat)
    requires i < |chans| == |shards|
    ensures AllItems(chans[i..], shards[i..]) ==
            PackItems(chans[i], shards[i]) + AllItems(chans[i + 1..], shards[i + 1..])
  {
    assert chans[i..][1..] == chans[i + 1..] && shards[i..][1..] == shards[i + 1..];
  }

  lemma Associates<T>(a: seq<T>, b: seq<T>, c: seq<T>)
    ensures a + (b + c) == a + b + c
  {
  }

  /** Decodes the pack of every active channel. */
  method ReadPacks(chans: seq<Chan>, shards: seq<seq<Key>>) returns (ok: bool, out: seq<Chan>, items: seq<Item>)
    requires |chans| == |shards|
    ensures |out| == |chans| && items == AllItems(chans, shards)
    ensures ok ==> forall i :: 0 <= i < |chans| ==> RoundOk(chans, shards, out, i)
    ensures !ok ==> exists i :: 0 <= i < |chans| && !PackOk(chans[i], shards[i])
  {
    ok, out, items := true, [], [];
    ghost var bad := 0;
    for i := 0 to |chans|
      invariant |out| == i
      invariant items + AllItems(chans[i..], shards[i..]) == AllItems(chans, shards)
      invariant ok ==> forall j :: 0 <= j < i ==> RoundOk(chans, shards, out, j)
      invariant !ok ==> 0 <= bad < i && !PackOk(chans[bad], shards[bad])
    {
      AllItemsStep(chans, shards, i, items);
      var fine, ch, got := ReadPack(chans[i], shards[i]);
      if !fine { bad := i; }
      if ok && fine { RoundOkSnoc(chans, shards, out, ch); }
      ok, out, items := ok && fine, out + [ch], items + got;
    }
  }

  // ---- a round with honest senders ----

  lemma {:induction false} DistinctCounts(s: seq<Key>, k: Key)
    requires Distinct(s)
    ensures multiset(s)[k] <= 1
    decreases |s|
  {
    if s != [] {
      var init, last := s[..|s| - 1], s[|s| - 1];
      assert s == init + [last];
      DistinctCounts(init, k);
      assert last !in init;
    }
  }

  lemma {:induction false} CountsDistinct(s: seq<Key>)
    requires forall k :: multiset(s)[k] <= 1
    ensures Distinct(s)
    decreases |s|
  {
    if s != [] {
      var init, last := s[..|s| - 1], s[|s| - 1];
      assert s == init + [last];
      assert multiset(s)[last] == multiset(init)[last] + 1;
      assert last !in init;
      forall k ensures multiset(init)[k] <= 1 { assert multiset(s)[k] >= multiset(init)[k]; }
      CountsDistinct(init);
    }
  }

  lemma {:induction false} ShardWithin(ss: seq<seq<Key>>, i: nat)
    requires i < |ss|
    ensures multiset(ss[i]) <= multiset(Concat(ss))
    decreases |ss|
  {
    if i > 0 {
      ShardWithin(ss[1..], i - 1);
      assert ss[1..][i - 1] == ss[i];
    }
  }

  /** The shards of a round of distinct keys are themselves distinct. */
  lemma ShardsDistinct(shards: seq<seq<Key>>, wants: seq<Key>, i: nat)
    requires i < |shards| && Distinct(wants) && multiset(Concat(shards)) == multiset(wants)
    ensures Distinct(shards[i]) && forall k :: k in shards[i] ==> k in wants
  {
    ShardWithin(shards, i);
    forall k ensures multiset(shards[i])[k] <= 1 {
      DistinctCounts(wants, k);
      assert multiset(shards[i])[k] <= multiset(wants)[k];
    }
    CountsDistinct(shards[i]);
    forall k | k in shards[i] ensures k in wants {
      assert k in multiset(shards[i]) && k in multiset(wants);
    }
  }

  /** Channel i delivers exactly its shard, with bytes that match their keys. */
  ghost predicate Delivers(chans: seq<Chan>, shards: seq<seq<Key>>, i: nat)
    requires i < |chans| == |shards|
  {
    var items := PackItems(chans[i], shards[i]);
    (forall it :: it in items ==> Verified(it)) && multiset(KeysOf(items)) == multiset(shards[i])
  }

  lemma HonestChannel(ch: Chan, shard: seq<Key>, s: Sender)
    requires Aligned(ch, s) && Able(s) && Distinct(shard) && forall k :: k in shard ==> k in s.source
    ensures PackOk(Posted(ch, shard), shard) && Aligned(PackRead(Posted(ch, shard), shard), s)
    ensures forall it :: it in PackItems(Posted(ch, shard), shard) ==> Verified(it)
    ensures multiset(KeysOf(PackItems(Posted(ch, shard), shard))) == multiset(shard)
  {
    if shard != [] {
      HonestRound(ch, shard, s);
      KeysOfItems(s.order(shard));
    }
  }

  lemma KeysAppend(a: seq<Item>, b: seq<Item>)
    ensures multiset(KeysOf(a + b)) == multiset(KeysOf(a)) + multiset(KeysOf(b))
  {
    assert KeysOf(a + b) == KeysOf(a) + KeysOf(b);
  }

  /** If every channel delivers its shard, the round delivers exactly its keys. */
  lemma {:induction false} RoundDelivers(chans: seq<Chan>, shards: seq<seq<Key>>)
    requires |chans| == |shards| && forall i :: 0 <= i < |chans| ==> Delivers(chans, shards, i)
    ensures forall it :: it in AllItems(chans, shards) ==> Verified(it)
    ensures multiset(KeysOf(AllItems(chans, shards))) == multiset(Concat(shards))
    decreases |chans|
  {
    if chans != [] {
      assert Delivers(chans, shards, 0);
      forall i | 0 <= i < |chans[1..]| ensures Delivers(chans[1..], shards[1..], i) {
        assert Delivers(chans, shards, i + 1);
      }
      RoundDelivers(chans[1..], shards[1..]);
      KeysAppend(PackItems(chans[0], shards[0]), AllItems(chans[1..], shards[1..]));
    }
  }

  // ---- Receive ----

  /** All channels lead to idle honest senders over a store that holds the whole closure. */
  ghost predicate Honest(chans: seq<Chan>, root: Key, s: Sender) {
    && Able(s) && Complete(root, s.source)
    && forall i :: 0 <= i < |chans| ==> Aligned(chans[i], s)
  }

  /** `after` extends `before` by want rounds only. */
  ghost predicate OnlyRounds(before: seq<Frame>, after: seq<Frame>) {
    before <= after && Rounds(after[|before|..])
  }

  lemma OnlyRoundsGrows(before: seq<Frame>, after: seq<Frame>, shard: seq<Key>)
    requires OnlyRounds(before, after) && 0 < |shard| <= 32768
    ensures OnlyRounds(before, after + [Wants(shard)])
  {
    assert (after + [Wants(shard)])[|before|..] == after[|before|..] + [Wants(shard)];
  }

  /** After a round in which everything asked for was delivered and stored. */
  lemma RoundCorrect(root: Key, present: set<Key>, frontier: seq<Key>, ask: seq<Key>, carry: seq<Key>,
                     items: seq<Item>, present': set<Key>)
    requires HeldBy(root, present, frontier) && present <= present'
    requires forall f :: f in frontier ==> f in ask + carry || Complete(f, present)
    requires forall i :: 0 <= i < |items| ==> Verified(items[i]) && items[i].key in present'
    requires forall k :: k in ask ==> k in KeysOf(items)
    ensures HeldBy(root, present', KidsOf(items) + carry)
  {
    var next := KidsOf(items) + carry;
    forall f | f in frontier && !Complete(f, present) && f !in next
      ensures f in present' && forall c :: c in f.data.kids ==> c in next
    {
      assert f in ask + carry;
      assert f in ask;
      var i :| 0 <= i < |items| && KeysOf(items)[i] == f;
      forall c | c in f.data.kids ensures c in next { KidsOfHas(items, i, c); }
    }
    RoundKeepsHeld(root, present, frontier, present', next);
  }

  /** If exactly the requested keys were delivered, the unfolded size of the next frontier is that
      of this round's wants, carried keys included, less the number of keys requested. */
  lemma RoundShrinks(ask: seq<Key>, carry: seq<Key>, items: seq<Item>)
    requires forall it :: it in items ==> Verified(it)
    requires multiset(KeysOf(items)) == multiset(ask)
    ensures Sizes(KidsOf(items) + carry) + |ask| == Sizes(ask + carry)
  {
    KidsWeighLess(items);
    SizesPermute(KeysOf(items), ask);
    assert |items| == |multiset(KeysOf(items))| == |ask|;
    SizesAppend(KidsOf(items), carry);
    SizesAppend(ask, carry);
  }

  /** What an honest source has to offer stays on offer: the next frontier is complete there. */
  lemma RoundWithinSource(ask: seq<Key>, carry: seq<Key>, items: seq<Item>, source: set<Key>)
    requires forall it :: it in items ==> Verified(it)
    requires multiset(KeysOf(items)) == multiset(ask)
    requires forall k :: k in ask + carry ==> Complete(k, source)
    ensures forall k :: k in KidsOf(items) + carry ==> Complete(k, source)
  {
    forall c | c in KidsOf(items) ensures Complete(c, source) {
      var i := KidsOfFrom(items, c);
      assert items[i] in items;
      var k := KeysOf(items)[i];
      assert k in multiset(KeysOf(items)) && k in multiset(ask);
      assert k in ask + carry;
    }
    forall k | k in carry ensures Complete(k, source) { assert k in ask + carry; }
  }

  /** One exchange with honest senders, summed up. */
  lemma HonestExchange(chans: seq<Chan>, shards: seq<seq<Key>>, ask: seq<Key>, posted: seq<Chan>, s: Sender)
    requires |chans| == |shards| == |posted| && Able(s)
    requires forall i :: 0 <= i < |chans| ==> Aligned(chans[i], s)
    requires forall i :: 0 <= i < |chans| ==> posted[i] == Posted(chans[i], shards[i])
    requires Distinct(ask) && multiset(Concat(shards)) == multiset(ask) && forall k :: k in ask ==> k in s.source
    ensures forall i :: 0 <= i < |chans| ==> PackOk(posted[i], shards[i]) && Aligned(PackRead(posted[i], shards[i]), s)
    ensures forall it :: it in AllItems(posted, shards) ==> Verified(it)
    ensures multiset(KeysOf(AllItems(posted, shards))) == multiset(ask)
  {
    forall i | 0 <= i < |chans|
      ensures PackOk(posted[i], shards[i]) && Aligned(PackRead(posted[i], shards[i]), s)
      ensures Delivers(posted, shards, i)
    {
      ShardsDistinct(shards, ask, i);
      HonestChannel(chans[i], shards[i], s);
    }
    RoundDelivers(posted, shards);
  }

  lemma EndHonest(ch: Chan, s: Sender)
    requires Aligned(ch, s)
    ensures Post(ch, Wants([])).inbox == [] && SendRun(s, Post(ch, Wants([])).outbox).session.Done?
  {
    var h := ch.outbox + [Wants([])];
    assert h[..|h| - 1] == ch.outbox && h[|h| - 1] == Wants([]);
  }

  /** The final, empty TWants goes to every channel. */
  method PostEnd(chans: seq<Chan>, flaky: bool) returns (sent: bool, out: seq<Chan>)
    ensures !sent ==> flaky
    ensures sent ==> |out| == |chans| && forall i :: 0 <= i < |chans| ==> out[i] == Post(chans[i], Wants([]))
  {
    out := [];
    for i := 0 to |chans|
      invariant |out| == i && forall j :: 0 <= j < i ==> out[j] == Post(chans[j], Wants([]))
    {
      var trouble: bool := *;
      if flaky && trouble { return false, out; }
      out := out + [Post(chans[i], Wants([]))];
    }
    sent := true;
  }

  lemma GatherHonest(chans: seq<Chan>, shards: seq<seq<Key>>, ask: seq<Key>, posted: seq<Chan>, out: seq<Chan>,
                     got: seq<Item>, items: seq<Item>, s: Sender)
    requires |chans| == |shards| == |posted| == |out| && Distinct(ask) && HonestAsk(chans, ask, s)
    requires forall i :: 0 <= i < |chans| ==> posted[i] == Posted(chans[i], shards[i])
    requires multiset(Concat(shards)) == multiset(ask)
    requires got == AllItems(posted, shards) && multiset(items) == multiset(got)
    ensures forall i :: 0 <= i < |chans| ==> PackOk(posted[i], shards[i])
    ensures (forall i :: 0 <= i < |chans| ==> RoundOk(posted, shards, out, i)) ==> HonestGot(out, ask, items, s)
  {
    HonestExchange(chans, shards, ask, posted, s);
    KeysPermute(items, got);
    forall it | it in items ensures Verified(it) {
      assert it in multiset(items);
      assert it in got;
    }
    if forall i :: 0 <= i < |chans| ==> RoundOk(posted, shards, out, i) {
      forall i | 0 <= i < |out| ensures Aligned(out[i], s) { assert RoundOk(posted, shards, out, i); }
    }
  }

  /** Deals one round of keys over the channels and reads the packs that come back, merged in
      whatever order they arrive. The peers are arbitrary; the ghost parameters matter only
      when the peers happen to be honest senders. */
  method Gather(chans: seq<Chan>, ask: seq<Key>, flaky: bool, ghost s: Sender)
    returns (ok: bool, out: seq<Chan>, items: seq<Item>)
    requires |chans| >= 1
    ensures ok ==> Gathered(chans, ask, out, items)
    ensures !flaky && Distinct(ask) && HonestAsk(chans, ask, s) ==>
              ok && HonestGot(out, ask, items, s)
  {
    assert |seq(|chans|, i => 0)| == |chans|;
    var weights: seq<int> :| |weights| == |chans|;
    var shards, _ := DealWants(ask, weights);
    var sent, posted := PostWants(chans, shards, flaky);
    if !sent { return false, chans, []; }
    var got;
    ok, out, got := ReadPacks(posted, shards);
    items :| multiset(items) == multiset(got);
    if Distinct(ask) && HonestAsk(chans, ask, s) {
      GatherHonest(chans, shards, ask, posted, out, got, items, s);
    }
    if ok {
      assert posted == PostedAll(chans, shards);
      assert GatheredBy(chans, shards, out, items);
    }
  }

  /** The channels after each got its shard of the round. */
  function PostedAll(chans: seq<Chan>, shards: seq<seq<Key>>): seq<Chan>
    requires |chans| == |shards|
  {
    seq(|chans|, i requires 0 <= i < |chans| => Posted(chans[i], shards[i]))
  }

  /** Each channel got its shard and answered with a whole pack, which was read to its end, and the
      items are those of all packs together. */
  ghost predicate GatheredBy(chans: seq<Chan>, shards: seq<seq<Key>>, out: seq<Chan>, items: seq<Item>) {
    && |shards| == |chans| == |out|
    && (forall i :: 0 <= i < |chans| ==> RoundOk(PostedAll(chans, shards), shards, out, i))
    && multiset(items) == multiset(AllItems(PostedAll(chans, shards), shards))
  }

  /** The same for some way of dealing exactly the keys asked for. */
  ghost predicate Gathered(chans: seq<Chan>, ask: seq<Key>, out: seq<Chan>, items: seq<Item>) {
    exists shards :: multiset(Concat(shards)) == multiset(ask) && GatheredBy(chans, shards, out, items)
  }

  lemma GatheredRounds(chans: seq<Chan>, ask: seq<Key>, out: seq<Chan>, items: seq<Item>)
    requires Gathered(chans, ask, out, items)
    ensures |out| == |chans| && forall i :: 0 <= i < |chans| ==> AfterRound(chans[i], out[i], |ask|)
  {
    var shards :| multiset(Concat(shards)) == multiset(ask) && GatheredBy(chans, shards, out, items);
    assert |multiset(Concat(shards))| == |multiset(ask)|;
    forall i | 0 <= i < |chans| ensures AfterRound(chans[i], out[i], |ask|) {
      ShardFits(shards, i);
      assert RoundOk(PostedAll(chans, shards), shards, out, i);
      assert out[i] == PackRead(Posted(chans[i], shards[i]), shards[i]);
    }
  }

  /** One round: gather, store what arrived with its bytes checked, and insist on every key. */
  method Exchange(chans: seq<Chan>, st: PackStore, ask: seq<Key>, flaky: bool, ghost s: Sender)
    returns (ok: bool, out: seq<Chan>, items: seq<Item>)
    requires |chans| >= 1
    modifies st
    ensures old(st.objects) <= st.objects
    ensures ok ==> Gathered(chans, ask, out, items)
    ensures ok ==> |out| == |chans| && forall i :: 0 <= i < |chans| ==> AfterRound(chans[i], out[i], |ask|)
    ensures ok ==> forall i :: 0 <= i < |items| ==> Verified(items[i]) && items[i].key in st.objects
    ensures ok ==> forall k :: k in ask ==> k in KeysOf(items)
    ensures !st.faulty && !flaky && Distinct(ask) && HonestAsk(chans, ask, s) ==>
              ok && HonestGot(out, ask, items, s)
  {
    var read;
    read, out, items := Gather(chans, ask, flaky, s);
    if read { GatheredRounds(chans, ask, out, items); }
    var stored, _ := st.WriteParallel(items);
    var received := set i | 0 <= i < |items| :: items[i].key;
    InReceived(items, received);
    forall k | k in ask ensures k in multiset(ask) {}
    var delivered := CheckDelivered(received, ask);
    ok := read && stored && delivered;
  }

  lemma InReceived(items: seq<Item>, received: set<Key>)
    requires received == set i | 0 <= i < |items| :: items[i].key
    ensures forall k :: k in received <==> k in KeysOf(items)
    ensures forall k :: k in received <==> k in multiset(KeysOf(items))
  {
    forall k | k in received ensures k in KeysOf(items) {
      var i :| 0 <= i < |items| && items[i].key == k;
      assert KeysOf(items)[i] == k;
    }
  }

  /** The channel went through one round, with or without a shard of its own, of at most `cap` keys. */
  ghost predicate AfterRound(before: Chan, after: Chan, cap: nat) {
    exists shard :: |shard| <= cap && after == PackRead(Posted(before, shard), shard)
  }

  lemma {:induction false} ShardFits(shards: seq<seq<Key>>, i: nat)
    requires i < |shards|
    ensures |shards[i]| <= |Concat(shards)|
    decreases |shards|
  {
    if i > 0 { ShardFits(shards[1..], i - 1); }
  }

  ghost predicate HonestAsk(chans: seq<Chan>, ask: seq<Key>, s: Sender) {
    && Able(s) && (forall k :: k in ask ==> k in s.source)
    && forall i :: 0 <= i < |chans| ==> Aligned(chans[i], s)
  }

  ghost predicate HonestGot(out: seq<Chan>, ask: seq<Key>, items: seq<Item>, s: Sender) {
    && (forall i :: 0 <= i < |out| ==> Aligned(out[i], s))
    && (forall it :: it in items ==> Verified(it))
    && multiset(KeysOf(items)) == multiset(ask)
  }

  lemma RoundKeepsSession(before: seq<Frame>, ch: Chan, out: Chan)
    requires OnlyRounds(before, ch.outbox) && AfterRound(ch, out, 32768)
    ensures OnlyRounds(before, out.outbox)
  {
    var shard :| |shard| <= 32768 && out == PackRead(Posted(ch, shard), shard);
    if shard != [] { OnlyRoundsGrows(before, ch.outbox, shard); }
  }

  /** What holds between two rounds. */
  ghost predicate BetweenRounds(start: seq<Chan>, chans: seq<Chan>, root: Key, present: set<Key>, frontier: seq<Key>) {
    && |chans| == |start|
    && (forall i :: 0 <= i < |chans| ==> OnlyRounds(start[i].outbox, chans[i].outbox))
    && HeldBy(root, present, frontier)
  }

  /** And what holds as well when every peer is an honest sender: the closure is on offer, and
      rounds done plus the unfolded size of the frontier never exceed the size of the tree. */
  ghost predicate HonestBetweenRounds(chans: seq<Chan>, root: Key, frontier: seq<Key>, rounds: nat, s: Sender) {
    && Able(s)
    && (forall i :: 0 <= i < |chans| ==> Aligned(chans[i], s))
    && (forall k :: k in frontier ==> Complete(k, s.source))
    && rounds + Sizes(frontier) <= Size(root)
  }

  /** One round with keys to ask for: the root stays held by the new frontier, and with honest
      senders the round succeeds and the bound on the rest falls with it. */
  method Round(ghost start: seq<Chan>, chans: seq<Chan>, st: PackStore, ghost root: Key, ghost frontier: seq<Key>,
               ghost before: set<Key>, ask: seq<Key>, carry: seq<Key>, flaky: bool, ghost rounds: nat, ghost s: Sender)
    returns (ok: bool, out: seq<Chan>, next: seq<Key>)
    requires |chans| >= 1 && 0 < |ask| <= 32768 && Wanted(frontier, ask + carry, before, st.objects)
    requires BetweenRounds(start, chans, root, st.objects, frontier)
    modifies st
    ensures old(st.objects) <= st.objects
    ensures ok ==> BetweenRounds(start, out, root, st.objects, next)
    ensures !st.faulty && !flaky && HonestBetweenRounds(chans, root, frontier, rounds, s) ==>
              ok && HonestBetweenRounds(out, root, next, rounds + 1, s)
  {
    ghost var honest := !st.faulty && !flaky && HonestBetweenRounds(chans, root, frontier, rounds, s);
    ghost var present := st.objects;
    AskIsDistinct(ask + carry, ask, carry);
    var items;
    ok, out, items := Exchange(chans, st, ask, flaky, s);
    next := KidsOf(items) + carry;
    if !ok { return; }
    RoundCorrect(root, present, frontier, ask, carry, items, st.objects);
    forall i | 0 <= i < |chans| ensures OnlyRounds(start[i].outbox, out[i].outbox) {
      assert AfterRound(chans[i], out[i], |ask|);
      RoundKeepsSession(start[i].outbox, chans[i], out[i]);
    }
    if honest {
      RoundShrinks(ask, carry, items);
      RoundWithinSource(ask, carry, items, s.source);
    }
  }

  /** Receive: rounds of wants until nothing below root is missing. `patience` is the number of
      rounds the stream's deadline leaves time for; `flaky` streams may fail at any write. */
  method Receive(chans: seq<Chan>, st: PackStore, root: Key, patience: nat, flaky: bool,
                 ghost s: Sender)
    returns (ok: bool, out: seq<Chan>, rounds: nat)
    requires |chans| >= 1
    modifies st
    ensures old(st.objects) <= st.objects
    ensures ok ==> Complete(root, st.objects) && ReachablePresent(root, st.objects)
    ensures ok ==> |out| == |chans| && forall i :: 0 <= i < |chans| ==> Finished(chans[i].outbox, out[i].outbox)
    ensures !st.faulty && !flaky && Honest(chans, root, s) ==>
              && rounds <= Size(root)
              && (patience > Size(root) ==> ok)
              && (ok ==> forall i :: 0 <= i < |out| ==> out[i].inbox == [] && SendRun(s, out[i].outbox).session.Done?)
  {
    ghost var honest := !st.faulty && !flaky && Honest(chans, root, s);
    var frontier := [root];
    out, rounds := chans, 0;
    while rounds < patience
      invariant old(st.objects) <= st.objects
      invariant BetweenRounds(chans, out, root, st.objects, frontier)
      invariant honest ==> HonestBetweenRounds(out, root, frontier, rounds, s)
      decreases patience - rounds
    {
      ghost var before := st.objects;
      var wants := WantsOf(st, frontier);
      if wants.None? { return false, out, rounds; }
      HeldGrows(root, before, st.objects, frontier);
      var (ask, carry) := SplitWants(wants.value, MAX_WANTS);
      if ask == [] {
        HeldIsComplete(root, st.objects, frontier);
        CompleteMeans(root, st.objects);
        var sent, ended := PostEnd(out, flaky);
        if sent { EndCorrect(chans, out, ended, honest, s); }
        return sent, ended, rounds;
      }
      var got, next, after := Round(chans, out, st, root, frontier, before, ask, carry, flaky, rounds, s);
      if !got { return false, out, rounds; }
      frontier, out, rounds := after, next, rounds + 1;
    }
    ok := false;
  }

  lemma AskIsDistinct(wants: seq<Key>, ask: seq<Key>, carry: seq<Key>)
    requires Distinct(wants) && wants == ask + carry
    ensures Distinct(ask) && forall k :: k in ask ==> k in wants
  {
    assert ask == wants[..|ask|];
  }

  lemma EndCorrect(start: seq<Chan>, chans: seq<Chan>, ended: seq<Chan>, honest: bool, s: Sender)
    requires |start| == |chans| == |ended|
    requires forall i :: 0 <= i < |chans| ==> OnlyRounds(start[i].outbox, chans[i].outbox)
    requires forall i :: 0 <= i < |chans| ==> ended[i] == Post(chans[i], Wants([]))
    requires honest ==> forall i :: 0 <= i < |chans| ==> Aligned(chans[i], s)
    ensures forall i :: 0 <= i < |chans| ==> Finished(start[i].outbox, ended[i].outbox)
    ensures honest ==> forall i :: 0 <= i < |chans| ==>
              ended[i].inbox == [] && SendRun(s, ended[i].outbox).session.Done?
  {
    forall i | 0 <= i < |chans| ensures Finished(start[i].outbox, ended[i].outbox) {
      var h := ended[i].outbox;
      assert h[..|h| - 1] == chans[i].outbox;
    }
    if honest {
      forall i | 0 <= i < |chans|
        ensures ended[i].inbox == [] && SendRun(s, ended[i].outbox).session.Done?
      {
        EndHonest(chans[i], s);
      }
    }
  }
}
