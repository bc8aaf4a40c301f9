/** Reference commits under concurrency: handlePush, checkCAS, lockRef and
    handlePull of amberiroh/server.go, and the client's pull.

    Each event is one atomic step of one operation; a run is any sequence of
    events, so every interleaving is a run. An event that is not enabled is
    skipped. Objects are never collected while operations are in flight.
 */
module RefCommit {
  import opened Wrappers
  import opened Objects

  type Name = string
  type OpId = nat

  datatype Phase = Receiving | Received | Locked | Checked

  datatype Push = Push(name: Name, root: Key, cas: bool, expected: Option<Key>, phase: Phase)

  datatype Pull = Pull(client: nat, name: Name, root: Key)

  /** One side of the wire: an object store and a reference store. */
  datatype Peer = Peer(objects: set<Key>, refs: map<Name, Key>)

  /** A committed push: the value it replaced and the value it wrote. */
  datatype Commit = Commit(op: OpId, name: Name, cas: bool, expected: Option<Key>, before: Option<Key>, root: Key)

  datatype State = State(
    server: Peer,
    clients: map<nat, Peer>,
    locks: map<Name, OpId>,
    pushes: map<OpId, Push>,
    pulls: map<OpId, Pull>,
    commits: seq<Commit>)

  datatype Event =
    | StartPush(op: OpId, name: Name, root: Key, cas: bool, expected: Option<Key>)  // early CAS check
    | Arrive(objects: set<Key>)                     // some transfer stores verified objects
    | PushReceived(op: OpId)                        // Receive returned without error
    | Lock(op: OpId)                                // lockRef
    | Check(op: OpId)                               // the authoritative checkCAS
    | Put(op: OpId)                                 // refs.Put, then unlock
    | AbandonPush(op: OpId)                         // any error: the deferred unlock runs
    | OwnPut(name: Name, key: Key)                  // the server's own PutRef, which takes no lock
    | StartPull(op: OpId, client: nat, name: Name)  // handlePull resolves the ref
    | ArriveAt(client: nat, objects: set<Key>)
    | PullReceived(op: OpId)                        // Receive returned, then the client's PutRef
    | AbandonPull(op: OpId)

  function Current(p: Peer, n: Name): Option<Key> { if n in p.refs then Some(p.refs[n]) else None }

  predicate CasHolds(s: State, p: Push) { p.cas ==> Current(s.server, p.name) == p.expected }

  /** When an event can happen. `own` are the names the server also writes by itself, without
      going through a push. */
  predicate Enabled(own: set<Name>, s: State, e: Event) {
    match e
    case StartPush(op, n, root, cas, expected) =>
      op !in s.pushes && CasHolds(s, Push(n, root, cas, expected, Receiving))
    case Arrive(_) => true
    case PushReceived(op) =>
      op in s.pushes && s.pushes[op].phase == Receiving && Complete(s.pushes[op].root, s.server.objects)
    case Lock(op) => op in s.pushes && s.pushes[op].phase == Received && s.pushes[op].name !in s.locks
    case Check(op) => op in s.pushes && s.pushes[op].phase == Locked && CasHolds(s, s.pushes[op])
    case Put(op) => op in s.pushes && s.pushes[op].phase == Checked
    case AbandonPush(op) => op in s.pushes
    case OwnPut(n, k) => n in own && Complete(k, s.server.objects)
    case StartPull(op, c, n) => op !in s.pulls && c in s.clients && n in s.server.refs
    case ArriveAt(c, _) => c in s.clients
    case PullReceived(op) =>
      op in s.pulls && s.pulls[op].client in s.clients &&
      Complete(s.pulls[op].root, s.clients[s.pulls[op].client].objects)
    case AbandonPull(op) => op in s.pulls
  }

  function Unlock(s: State, op: OpId): State
    requires op in s.pushes
  {
    var p := s.pushes[op];
    s.(locks := if p.phase in {Locked, Checked} then s.locks - {p.name} else s.locks, pushes := s.pushes - {op})
  }

  function Advance(s: State, op: OpId, phase: Phase): State
    requires op in s.pushes
  {
    s.(pushes := s.pushes[op := s.pushes[op].(phase := phase)])
  }

  function Do(own: set<Name>, s: State, e: Event): State
    requires Enabled(own, s, e)
  {
    match e
    case StartPush(op, n, root, cas, expected) =>
      s.(pushes := s.pushes[op := Push(n, root, cas, expected, Receiving)])
    case Arrive(os) => s.(server := s.server.(objects := s.server.objects + os))
    case PushReceived(op) => Advance(s, op, Received)
    case Lock(op) => Advance(s, op, Locked).(locks := s.locks[s.pushes[op].name := op])
    case Check(op) => Advance(s, op, Checked)
    case Put(op) =>
      var p := s.pushes[op];
      Unlock(s, op).(
        server := s.server.(refs := s.server.refs[p.name := p.root]),
        commits := s.commits + [Commit(op, p.name, p.cas, p.expected, Current(s.server, p.name), p.root)])
    case AbandonPush(op) => Unlock(s, op)
    case OwnPut(n, k) => s.(server := s.server.(refs := s.server.refs[n := k]))
    case StartPull(op, c, n) => s.(pulls := s.pulls[op := Pull(c, n, s.server.refs[n])])
    case ArriveAt(c, os) => s.(clients := s.clients[c := s.clients[c].(objects := s.clients[c].objects + os)])
    case PullReceived(op) =>
      var p := s.pulls[op];
      var c := s.clients[p.client];
      s.(pulls := s.pulls - {op}, clients := s.clients[p.client := c.(refs := c.refs[p.name := p.root])])
    case AbandonPull(op) => s.(pulls := s.pulls - {op})
  }

  function Exec(own: set<Name>, s: State, events: seq<Event>): State
    decreases |events|
  {
    if events == [] then s
    else Exec(own, if Enabled(own, s, events[0]) then Do(own, s, events[0]) else s, events[1..])
  }

  // ---- what every run keeps ----

  /** Every reference points at a root whose whole closure is stored. */
  ghost predicate RefsWhole(p: Peer) { forall n :: n in p.refs ==> Complete(p.refs[n], p.objects) }

  /** The value the commits to n leave behind, starting from `start`. */
  function ValueAfter(commits: seq<Commit>, n: Name, start: Option<Key>): Option<Key>
    decreases |commits|
  {
    if commits == [] then start
    else
      var last := commits[|commits| - 1];
      if last.name == n then Some(last.root) else ValueAfter(commits[..|commits| - 1], n, start)
  }

  /** Commit i replaced what the commits before it left there; a CAS commit replaced what it named. */
  ghost predicate CommitExact(commits: seq<Commit>, i: nat, start: map<Name, Key>)
    requires i < |commits|
  {
    var c := commits[i];
    && c.before == ValueAfter(commits[..i], c.name, StartValue(start, c.name))
    && (c.cas ==> c.before == c.expected)
  }

  ghost predicate LocksHeld(s: State) {
    && (forall op :: op in s.pushes && s.pushes[op].phase in {Locked, Checked} ==>
          s.pushes[op].name in s.locks && s.locks[s.pushes[op].name] == op)
    && (forall n :: n in s.locks ==>
          s.locks[n] in s.pushes && s.pushes[s.locks[n]].name == n && s.pushes[s.locks[n]].phase in {Locked, Checked})
  }

  /** Everything referenced, or about to be, is stored. */
  ghost predicate AllWhole(s: State) {
    && RefsWhole(s.server)
    && (forall c :: c in s.clients ==> RefsWhole(s.clients[c]))
    && (forall op :: op in s.pushes && s.pushes[op].phase != Receiving ==>
          Complete(s.pushes[op].root, s.server.objects))
  }

  /** A checked push to a name only pushes write still has its precondition. */
  ghost predicate ChecksStand(own: set<Name>, s: State) {
    forall op :: op in s.pushes && s.pushes[op].phase == Checked && s.pushes[op].name !in own ==>
          CasHolds(s, s.pushes[op])
  }

  function StartValue(start: map<Name, Key>, n: Name): Option<Key> { if n in start then Some(start[n]) else None }

  ghost predicate History(own: set<Name>, s: State, start: map<Name, Key>) {
    && (forall n :: n !in own ==> Current(s.server, n) == ValueAfter(s.commits, n, StartValue(start, n)))
    && (forall i :: 0 <= i < |s.commits| && s.commits[i].name !in own ==> CommitExact(s.commits, i, start))
  }

  ghost predicate Inv(own: set<Name>, s: State, start: map<Name, Key>) {
    AllWhole(s) && LocksHeld(s) && ChecksStand(own, s) && History(own, s, start)
  }

  lemma WholeGrows(p: Peer, os: set<Key>)
    requires RefsWhole(p)
    ensures RefsWhole(p.(objects := p.objects + os))
  {
    forall n | n in p.refs ensures Complete(p.refs[n], p.objects + os) {
      CompleteGrows(p.refs[n], p.objects, p.objects + os);
    }
  }

  lemma StepKeepsWhole(own: set<Name>, s: State, e: Event)
    requires AllWhole(s) && Enabled(own, s, e)
    ensures AllWhole(Do(own, s, e))
  {
    match e
    case Arrive(os) =>
      WholeGrows(s.server, os);
      forall op | op in s.pushes && s.pushes[op].phase != Receiving
        ensures Complete(s.pushes[op].root, s.server.objects + os)
      {
        CompleteGrows(s.pushes[op].root, s.server.objects, s.server.objects + os);
      }
    case ArriveAt(c, os) => WholeGrows(s.clients[c], os);
    case _ =>
  }

  lemma StepKeepsLocks(own: set<Name>, s: State, e: Event)
    requires LocksHeld(s) && Enabled(own, s, e)
    ensures LocksHeld(Do(own, s, e))
  {
  }

  lemma StepKeepsChecks(own: set<Name>, s: State, e: Event)
    requires LocksHeld(s) && ChecksStand(own, s) && Enabled(own, s, e)
    ensures ChecksStand(own, Do(own, s, e))
  {
  }

  lemma StepKeepsHistory(own: set<Name>, s: State, start: map<Name, Key>, e: Event)
    requires ChecksStand(own, s) && History(own, s, start) && Enabled(own, s, e)
    ensures History(own, Do(own, s, e), start)
  {
    if e.Put? {
      var cs, ds := s.commits, Do(own, s, e).commits;
      assert ds[..|cs|] == cs;
      forall i | 0 <= i < |ds| && ds[i].name !in own ensures CommitExact(ds, i, start) {
        if i < |cs| {
          assert CommitExact(cs, i, start);
          assert ds[..i] == cs[..i];
        }
      }
    }
  }

  lemma StepKeepsInv(own: set<Name>, s: State, start: map<Name, Key>, e: Event)
    requires Inv(own, s, start) && Enabled(own, s, e)
    ensures Inv(own, Do(own, s, e), start)
  {
    StepKeepsWhole(own, s, e);
    StepKeepsLocks(own, s, e);
    StepKeepsChecks(own, s, e);
    StepKeepsHistory(own, s, start, e);
  }

  /** In every interleaving of pushes and pulls: each committed reference, on the server and on
      every client, points at a wholly stored root; and for names the server does not write by
      itself, each push replaces exactly what the previous one left, and each CAS push exactly
      the value it named. */
  lemma {:induction false} EveryRunIsSafe(own: set<Name>, s: State, start: map<Name, Key>, events: seq<Event>)
    requires Inv(own, s, start)
    ensures Inv(own, Exec(own, s, events), start)
    decreases |events|
  {
    if events != [] {
      if Enabled(own, s, events[0]) {
        StepKeepsInv(own, s, start, events[0]);
        EveryRunIsSafe(own, Do(own, s, events[0]), start, events[1..]);
      } else {
        EveryRunIsSafe(own, s, start, events[1..]);
      }
    }
  }

  /** An idle system with whole references. */
  function Idle(server: Peer, clients: map<nat, Peer>): State { State(server, clients, map[], map[], map[], []) }

  lemma IdleIsSafe(own: set<Name>, server: Peer, clients: map<nat, Peer>)
    requires RefsWhole(server) && forall c :: c in clients ==> RefsWhole(clients[c])
    ensures Inv(own, Idle(server, clients), server.refs)
  {
  }

  // ---- what is written is what was sent ----

  /** The state before event i of a run. */
  function Before(own: set<Name>, s: State, events: seq<Event>, i: nat): State
    requires i <= |events|
  {
    Exec(own, s, events[..i])
  }

  /** Event i is not skipped. */
  predicate Happens(own: set<Name>, s: State, events: seq<Event>, i: nat)
    requires i < |events|
  {
    Enabled(own, Before(own, s, events, i), events[i])
  }

  lemma {:induction false} ExecSnoc(own: set<Name>, s: State, events: seq<Event>, e: Event)
    ensures Exec(own, s, events + [e]) ==
            var t := Exec(own, s, events); if Enabled(own, t, e) then Do(own, t, e) else t
    decreases |events|
  {
    if events == [] {
      assert events + [e] == [e] && [e][1..] == [];
    } else {
      assert (events + [e])[0] == events[0] && (events + [e])[1..] == events[1..] + [e];
      ExecSnoc(own, if Enabled(own, s, events[0]) then Do(own, s, events[0]) else s, events[1..], e);
    }
  }

  lemma NextState(own: set<Name>, s: State, events: seq<Event>, i: nat)
    requires i < |events|
    ensures Before(own, s, events, i + 1) ==
            var t := Before(own, s, events, i); if Happens(own, s, events, i) then Do(own, t, events[i]) else t
  {
    assert events[..i + 1] == events[..i] + [events[i]];
    ExecSnoc(own, s, events[..i], events[i]);
  }

  /** Event k started the push that runs as `op` before event i. */
  ghost predicate PushBegan(own: set<Name>, s: State, events: seq<Event>, op: OpId, k: nat, i: nat)
    requires i <= |events|
  {
    && k < i && Happens(own, s, events, k) && events[k].StartPush? && events[k].op == op
    && (forall j :: k < j < i && events[j].StartPush? && events[j].op == op ==> !Happens(own, s, events, j))
  }

  ghost predicate PullBegan(own: set<Name>, s: State, events: seq<Event>, op: OpId, k: nat, i: nat)
    requires i <= |events|
  {
    && k < i && Happens(own, s, events, k) && events[k].StartPull? && events[k].op == op
    && (forall j :: k < j < i && events[j].StartPull? && events[j].op == op ==> !Happens(own, s, events, j))
  }

  predicate SamePush(p: Push, q: Push) {
    p.name == q.name && p.root == q.root && p.cas == q.cas && p.expected == q.expected
  }

  lemma StepPushes(own: set<Name>, s: State, e: Event, op: OpId)
    requires Enabled(own, s, e) && op in Do(own, s, e).pushes
    ensures if e.StartPush? && e.op == op
            then SamePush(Do(own, s, e).pushes[op], Push(e.name, e.root, e.cas, e.expected, Receiving))
            else op in s.pushes && SamePush(Do(own, s, e).pushes[op], s.pushes[op])
  {
  }

  lemma StepPulls(own: set<Name>, s: State, e: Event, op: OpId)
    requires Enabled(own, s, e) && op in Do(own, s, e).pulls
    ensures if e.StartPull? && e.op == op
            then Do(own, s, e).pulls[op].client == e.client && Do(own, s, e).pulls[op].name == e.name &&
                 Current(s.server, e.name) == Some(Do(own, s, e).pulls[op].root)
            else op in s.pulls && Do(own, s, e).pulls[op] == s.pulls[op]
  {
  }

  lemma StepRefs(own: set<Name>, s: State, e: Event)
    requires Enabled(own, s, e)
    ensures !e.Put? ==> Do(own, s, e).commits == s.commits
    ensures !e.Put? && !e.OwnPut? ==> Do(own, s, e).server.refs == s.server.refs
    ensures e.OwnPut? ==> Do(own, s, e).server.refs == s.server.refs[e.name := e.key]
    ensures Do(own, s, e).clients.Keys == s.clients.Keys
  {
  }

  lemma StepClient(own: set<Name>, s: State, e: Event, c: nat)
    requires Enabled(own, s, e) && c in s.clients && !e.PullReceived?
    ensures c in Do(own, s, e).clients && Do(own, s, e).clients[c].refs == s.clients[c].refs
  {
  }

  /** A running push carries the name, root and precondition that it was started with. */
  lemma {:induction false} PushOrigin(own: set<Name>, s: State, events: seq<Event>, i: nat, op: OpId) returns (k: nat)
    requires i <= |events| && s.pushes == map[] && op in Before(own, s, events, i).pushes
    ensures PushBegan(own, s, events, op, k, i)
    ensures var p, e := Before(own, s, events, i).pushes[op], events[k];
            p.name == e.name && p.root == e.root && p.cas == e.cas && p.expected == e.expected
    decreases i
  {
    assert events[..0] == [] && i > 0;
    NextState(own, s, events, i - 1);
    if Happens(own, s, events, i - 1) { StepPushes(own, Before(own, s, events, i - 1), events[i - 1], op); }
    if Happens(own, s, events, i - 1) && events[i - 1].StartPush? && events[i - 1].op == op {
      k := i - 1;
    } else {
      k := PushOrigin(own, s, events, i - 1, op);
    }
  }

  /** A running pull carries the value that the server's reference had when it started. */
  lemma {:induction false} PullOrigin(own: set<Name>, s: State, events: seq<Event>, i: nat, op: OpId) returns (k: nat)
    requires i <= |events| && s.pulls == map[] && op in Before(own, s, events, i).pulls
    ensures PullBegan(own, s, events, op, k, i)
    ensures var p, e := Before(own, s, events, i).pulls[op], events[k];
            && p.client == e.client && p.name == e.name
            && Current(Before(own, s, events, k).server, e.name) == Some(p.root)
    decreases i
  {
    assert events[..0] == [] && i > 0;
    NextState(own, s, events, i - 1);
    if Happens(own, s, events, i - 1) { StepPulls(own, Before(own, s, events, i - 1), events[i - 1], op); }
    if Happens(own, s, events, i - 1) && events[i - 1].StartPull? && events[i - 1].op == op {
      k := i - 1;
    } else {
      k := PullOrigin(own, s, events, i - 1, op);
    }
  }

  /** A Put leaves the reference that its push named at the root that was pushed, and no other
      reference changed; a CAS push had named the value that was there when it started. */
  lemma PutWritesPushed(own: set<Name>, s: State, events: seq<Event>, i: nat) returns (k: nat)
    requires i < |events| && s.pushes == map[] && events[i].Put? && Happens(own, s, events, i)
    ensures PushBegan(own, s, events, events[i].op, k, i)
    ensures var a, b, e := Before(own, s, events, i), Before(own, s, events, i + 1), events[k];
            && b.server.refs == a.server.refs[e.name := e.root]
            && b.commits == a.commits + [Commit(e.op, e.name, e.cas, e.expected, Current(a.server, e.name), e.root)]
            && (e.cas ==> Current(Before(own, s, events, k).server, e.name) == e.expected)
  {
    k := PushOrigin(own, s, events, i, events[i].op);
    NextState(own, s, events, i);
  }

  /** Nothing but a Put or a write of the server's own changes its references, and only a Put commits. */
  lemma OnlyPutsWrite(own: set<Name>, s: State, events: seq<Event>, i: nat)
    requires i < |events| && !(events[i].Put? && Happens(own, s, events, i))
    ensures var a, b := Before(own, s, events, i), Before(own, s, events, i + 1);
            && b.commits == a.commits
            && b.server.refs ==
               if events[i].OwnPut? && Happens(own, s, events, i) then a.server.refs[events[i].name := events[i].key]
               else a.server.refs
  {
    NextState(own, s, events, i);
    if Happens(own, s, events, i) { StepRefs(own, Before(own, s, events, i), events[i]); }
  }

  /** A pull that completes leaves the client's reference at the value that the server had when the pull
      started, and changes no other reference of any client. */
  lemma PullDelivers(own: set<Name>, s: State, events: seq<Event>, i: nat) returns (k: nat)
    requires i < |events| && s.pulls == map[] && events[i].PullReceived? && Happens(own, s, events, i)
    ensures PullBegan(own, s, events, events[i].op, k, i)
    ensures var a, b, e := Before(own, s, events, i), Before(own, s, events, i + 1), events[k];
            && e.client in a.clients && a.clients.Keys == b.clients.Keys
            && Current(b.clients[e.client], e.name) == Current(Before(own, s, events, k).server, e.name)
            && Current(b.clients[e.client], e.name).Some?
            && (forall c, n :: c in a.clients && (c != e.client || n != e.name) ==>
                  Current(b.clients[c], n) == Current(a.clients[c], n))
  {
    k := PullOrigin(own, s, events, i, events[i].op);
    NextState(own, s, events, i);
  }

  lemma OnlyPullsDeliver(own: set<Name>, s: State, events: seq<Event>, i: nat)
    requires i < |events| && !(events[i].PullReceived? && Happens(own, s, events, i))
    ensures var a, b := Before(own, s, events, i), Before(own, s, events, i + 1);
            a.clients.Keys == b.clients.Keys && forall c :: c in a.clients ==> b.clients[c].refs == a.clients[c].refs
  {
    NextState(own, s, events, i);
    if Happens(own, s, events, i) {
      var a := Before(own, s, events, i);
      StepRefs(own, a, events[i]);
      forall c | c in a.clients ensures Do(own, a, events[i]).clients[c].refs == a.clients[c].refs {
        StepClient(own, a, events[i], c);
      }
    }
  }

  /** Every commit of a run is of a push in it, with its name, root and precondition. */
  lemma {:induction false} CommitsArePushes(own: set<Name>, s: State, events: seq<Event>, i: nat)
    requires i <= |events| && s.pushes == map[] && s.commits == []
    ensures forall c :: c in Before(own, s, events, i).commits ==>
              StartPush(c.op, c.name, c.root, c.cas, c.expected) in events
    decreases i
  {
    if i == 0 {
      assert events[..0] == [];
    } else {
      CommitsArePushes(own, s, events, i - 1);
      if events[i - 1].Put? && Happens(own, s, events, i - 1) {
        var k := PutWritesPushed(own, s, events, i - 1);
        assert events[k] in events;
      } else {
        OnlyPutsWrite(own, s, events, i - 1);
      }
    }
  }

  /** s with a push at some stage, holding its lock or not. */
  function WithPush(s: State, op: OpId, p: Push): State {
    s.(pushes := s.pushes[op := p],
       locks := if p.phase in {Locked, Checked} then s.locks[p.name := op] else s.locks)
  }

  function WithObjects(s: State, os: set<Key>): State {
    s.(server := Peer(s.server.objects + os, s.server.refs))
  }

  lemma RunReceived(own: set<Name>, s: State, op: OpId, p: Push, os: set<Key>, rest: seq<Event>)
    requires op !in s.pushes && p.phase == Receiving && CasHolds(s, p) && Complete(p.root, s.server.objects + os)
    ensures var start := StartPush(op, p.name, p.root, p.cas, p.expected);
            Exec(own, s, [start] + ([Arrive(os)] + ([PushReceived(op)] + rest))) ==
              Exec(own, WithPush(WithObjects(s, os), op, p.(phase := Received)), rest)
  {
    var s1, s2 := WithPush(s, op, p), WithPush(WithObjects(s, os), op, p);
    var s3 := WithPush(WithObjects(s, os), op, p.(phase := Received));
    ExecStep(own, s, StartPush(op, p.name, p.root, p.cas, p.expected), [Arrive(os)] + ([PushReceived(op)] + rest), s1);
    ExecStep(own, s1, Arrive(os), [PushReceived(op)] + rest, s2);
    assert s2.pushes[op := p.(phase := Received)] == s3.pushes;
    ExecStep(own, s2, PushReceived(op), rest, s3);
  }

  lemma RunChecked(own: set<Name>, s: State, op: OpId, p: Push, rest: seq<Event>)
    requires p.phase == Received && p.name !in s.locks && CasHolds(s, p)
    ensures Exec(own, WithPush(s, op, p), [Lock(op)] + ([Check(op)] + rest)) ==
            Exec(own, WithPush(s, op, p.(phase := Checked)), rest)
  {
    var s0, s1, s2 := WithPush(s, op, p), WithPush(s, op, p.(phase := Locked)), WithPush(s, op, p.(phase := Checked));
    assert s0.pushes[op := p.(phase := Locked)] == s1.pushes && s1.pushes[op := p.(phase := Checked)] == s2.pushes;
    ExecStep(own, s0, Lock(op), [Check(op)] + rest, s1);
    ExecStep(own, s1, Check(op), rest, s2);
  }

  /** The events of a whole push. */
  function WholePush(op: OpId, p: Push, os: set<Key>): seq<Event> {
    [StartPush(op, p.name, p.root, p.cas, p.expected)] +
    ([Arrive(os)] + ([PushReceived(op)] + ([Lock(op)] + ([Check(op)] + [Put(op)]))))
  }

  /** Nothing stops a push that nobody contends with: if the name is not locked, all that the root needs
      arrives and the precondition, if there is one, holds, the push goes through. */
  lemma PushGoesThrough(own: set<Name>, s: State, op: OpId, p: Push, os: set<Key>)
    requires op !in s.pushes && p.name !in s.locks && p.phase == Receiving && Complete(p.root, s.server.objects + os)
    requires p.cas ==> Current(s.server, p.name) == p.expected
    ensures var t := Exec(own, s, WholePush(op, p, os));
            Current(t.server, p.name) == Some(p.root) && op !in t.pushes && p.name !in t.locks
  {
    RunReceived(own, s, op, p, os, [Lock(op)] + ([Check(op)] + [Put(op)]));
    RunChecked(own, WithObjects(s, os), op, p.(phase := Received), [Put(op)]);
    var s4 := WithPush(WithObjects(s, os), op, p.(phase := Checked));
    assert [Put(op)] + [] == [Put(op)];
    ExecStep(own, s4, Put(op), [], Do(own, s4, Put(op)));
  }

  /** Nor a pull: once all that it needs has arrived, the client's reference is the server's. */
  lemma PullGoesThrough(own: set<Name>, s: State, op: OpId, c: nat, n: Name, os: set<Key>)
    requires op !in s.pulls && c in s.clients && n in s.server.refs
    requires Complete(s.server.refs[n], s.clients[c].objects + os)
    ensures var t := Exec(own, s, [StartPull(op, c, n), ArriveAt(c, os), PullReceived(op)]);
            c in t.clients && Current(t.clients[c], n) == Current(s.server, n) && op !in t.pulls
  {
    var s1 := Do(own, s, StartPull(op, c, n));
    var s2 := Do(own, s1, ArriveAt(c, os));
    ExecStep(own, s, StartPull(op, c, n), [ArriveAt(c, os), PullReceived(op)], s1);
    ExecStep(own, s1, ArriveAt(c, os), [PullReceived(op)], s2);
    ExecStep(own, s2, PullReceived(op), [], Do(own, s2, PullReceived(op)));
    assert [StartPull(op, c, n)] + [ArriveAt(c, os), PullReceived(op)] ==
           [StartPull(op, c, n), ArriveAt(c, os), PullReceived(op)];
    assert [ArriveAt(c, os)] + [PullReceived(op)] == [ArriveAt(c, os), PullReceived(op)];
    assert [PullReceived(op)] + [] == [PullReceived(op)];
  }

  /** However a pull ends, it is over. */
  lemma PullEnds(own: set<Name>, s: State, events: seq<Event>, i: nat)
    requires i < |events| && Happens(own, s, events, i) && (events[i].PullReceived? || events[i].AbandonPull?)
    ensures events[i].op !in Before(own, s, events, i + 1).pulls
  {
    NextState(own, s, events, i);
  }

  /** However a push ends, it is over and holds no lock. */
  lemma EndReleases(own: set<Name>, s: State, events: seq<Event>, i: nat)
    requires i < |events| && Happens(own, s, events, i) && (events[i].Put? || events[i].AbandonPush?)
    requires LocksHeld(Before(own, s, events, i))
    ensures var b := Before(own, s, events, i + 1);
            events[i].op !in b.pushes && forall n :: n in b.locks ==> b.locks[n] != events[i].op
  {
    NextState(own, s, events, i);
    StepKeepsLocks(own, Before(own, s, events, i), events[i]);
  }

  // ---- the lock is only as good as the writers that take it ----

  lemma ExecStep(own: set<Name>, s: State, e: Event, rest: seq<Event>, t: State)
    requires Enabled(own, s, e) && Do(own, s, e) == t
    ensures Exec(own, s, [e] + rest) == Exec(own, t, rest)
  {
    assert ([e] + rest)[1..] == rest;
  }

  /** A push that has checked its precondition and holds the lock. */
  function CheckedPush(server: Peer, n: Name, a: Key): State {
    Idle(server, map[]).(pushes := map[0 := Push(n, a, true, None, Checked)], locks := map[n := 0])
  }

  lemma ReachChecked(own: set<Name>, server: Peer, n: Name, a: Key, rest: seq<Event>) returns (events: seq<Event>)
    requires n !in server.refs && Complete(a, server.objects)
    ensures Exec(own, Idle(server, map[]), events) == Exec(own, CheckedPush(server, n, a), rest)
  {
    var s, p := Idle(server, map[]), Push(n, a, true, None, Receiving);
    events := [StartPush(0, n, a, true, None)] +
      ([Arrive({})] + ([PushReceived(0)] + ([Lock(0)] + ([Check(0)] + rest))));
    assert server.objects + {} == server.objects && WithObjects(s, {}) == s;
    RunReceived(own, s, 0, p, {}, [Lock(0)] + ([Check(0)] + rest));
    RunChecked(own, s, 0, p.(phase := Received), rest);
    assert WithPush(s, 0, p.(phase := Checked)) == CheckedPush(server, n, a);
  }

  /** For a name that the server also writes by itself, a CAS push can replace a value it never
      named: the server's PutRef lands between the authoritative check and the Put. */
  lemma OwnWritesDefeatCas(own: set<Name>, n: Name, a: Key, b: Key) returns (events: seq<Event>, server: Peer)
    requires n in own && a != b && a.data.kids == [] && b.data.kids == []
    ensures RefsWhole(server)
    ensures var c := Exec(own, Idle(server, map[]), events).commits;
            |c| == 1 && c[0].cas && c[0].before != c[0].expected
  {
    server := Peer({a, b}, map[]);
    var s4 := CheckedPush(server, n, a);
    var s5 := s4.(server := Peer({a, b}, map[n := b]));
    var put := [Put(0)] + [];
    events := ReachChecked(own, server, n, a, [OwnPut(n, b)] + put);
    ExecStep(own, s4, OwnPut(n, b), put, s5);
    ExecStep(own, s5, Put(0), [], Do(own, s5, Put(0)));
  }
}
