/**
 The requesting side of the hash exchange: hashes that peers announce are queued per peer, and the
 cron loop asks each peer for what is queued. The answer to an announcement never leads to a request
 for another page, since the message for it is built but not sent. While a request waits for its
 connection or for its bytes to be taken, more announcements may arrive.
 */
module HashRequests {
  import opened Basics
  import SenderMempools

  type Hash = SenderMempools.Hash

  type PeerId = string

  /** Waiting for the connection, or, after the first `sent` hashes were written, for the bytes to be
      taken. */
  datatype Phase = Quiet | Connecting | Draining(sent: nat)

  datatype Fate = Requested | Dropped

  datatype Departure = Departure(hash: Hash, fate: Fate)

  /** One peer: what is queued, what has left the queue and what was announced, all in order. */
  datatype Peer = Peer(queue: seq<Hash>, phase: Phase, gone: seq<Departure>, announced: seq<Hash>)

  const FRESH_PEER := Peer([], Quiet, [], [])

  datatype Event = Announce(hashes: seq<Hash>) | Flush | Refuse | Connect | Drain

  ghost predicate Enabled(p: Peer, e: Event) {
    match e
    case Announce(_) => true
    case Flush => p.phase.Quiet? && p.queue != []
    case Refuse => p.phase.Connecting?
    case Connect => p.phase.Connecting?
    case Drain => p.phase.Draining?
  }

  ghost function Leaving(hashes: seq<Hash>, fate: Fate): seq<Departure> {
    seq(|hashes|, i requires 0 <= i < |hashes| => Departure(hashes[i], fate))
  }

  /** What was queued before the bytes were written has been asked for; what came after it is cleared
      along with it. */
  ghost function Step(p: Peer, e: Event): Peer
    requires Enabled(p, e)
  {
    match e
    case Announce(hashes) => p.(queue := p.queue + hashes, announced := p.announced + hashes)
    case Flush => p.(phase := Connecting)
    case Refuse => Peer([], Quiet, p.gone + Leaving(p.queue, Dropped), p.announced)
    case Connect => p.(phase := Draining(|p.queue|))
    case Drain =>
      var n := if p.phase.sent <= |p.queue| then p.phase.sent else |p.queue|;
      Peer([], Quiet, p.gone + Leaving(p.queue[..n], Requested) + Leaving(p.queue[n..], Dropped), p.announced)
  }

  ghost predicate Runs(events: seq<Event>)
    decreases |events|, 0
  {
    events == [] || (Runs(events[..|events| - 1]) && Enabled(After(events[..|events| - 1]), events[|events| - 1]))
  }

  ghost function After(events: seq<Event>): Peer
    requires Runs(events)
    decreases |events|, 1
  {
    if events == [] then FRESH_PEER else Step(After(events[..|events| - 1]), events[|events| - 1])
  }

  lemma RunsOn(events: seq<Event>, e: Event)
    requires Runs(events) && Enabled(After(events), e)
    ensures Runs(events + [e]) && After(events + [e]) == Step(After(events), e)
  {
    assert (events + [e])[..|events|] == events;
  }

  // Nothing is invented, nothing is out of order

  ghost function HashesOf(gone: seq<Departure>): seq<Hash> {
    seq(|gone|, i requires 0 <= i < |gone| => gone[i].hash)
  }

  lemma HashesLeaving(gone: seq<Departure>, hashes: seq<Hash>, fate: Fate)
    ensures HashesOf(gone + Leaving(hashes, fate)) == HashesOf(gone) + hashes
  {
  }

  ghost predicate PeerOk(p: Peer) {
    && p.announced == HashesOf(p.gone) + p.queue
    && (p.phase.Draining? ==> p.phase.sent <= |p.queue|)
  }

  lemma StepOk(p: Peer, e: Event)
    requires PeerOk(p) && Enabled(p, e)
    ensures PeerOk(Step(p, e))
  {
    match e
    case Announce(hashes) => Associates(HashesOf(p.gone), p.queue, hashes);
    case Flush =>
    case Connect =>
    case Refuse => HashesLeaving(p.gone, p.queue, Dropped);
    case Drain =>
      var n := p.phase.sent;
      HashesLeaving(p.gone, p.queue[..n], Requested);
      HashesLeaving(p.gone + Leaving(p.queue[..n], Requested), p.queue[n..], Dropped);
      assert p.queue[..n] + p.queue[n..] == p.queue;
      Associates(HashesOf(p.gone), p.queue[..n], p.queue[n..]);
  }

  /** After every run, what a peer has announced is, in order, what was asked for or dropped, and what
      is queued. */
  lemma {:induction false} AnnouncedInOrder(events: seq<Event>)
    requires Runs(events)
    ensures PeerOk(After(events))
  {
    if events != [] {
      var front := events[..|events| - 1];
      AnnouncedInOrder(front);
      StepOk(After(front), events[|events| - 1]);
    }
  }

  // What is dropped

  ghost function DroppedIn(gone: seq<Departure>): seq<Hash> {
    if gone == [] then []
    else
      var last := gone[|gone| - 1];
      DroppedIn(gone[..|gone| - 1]) + if last.fate == Dropped then [last.hash] else []
  }

  lemma {:induction false} DroppedConcat(a: seq<Departure>, b: seq<Departure>)
    ensures DroppedIn(a + b) == DroppedIn(a) + DroppedIn(b)
  {
    if b == [] {
      assert a + b == a;
    } else {
      var (front, last) := (b[..|b| - 1], b[|b| - 1]);
      DroppedConcat(a, front);
      assert (a + b)[..|a + b| - 1] == a + front && (a + b)[|a + b| - 1] == last;
      Associates(DroppedIn(a), DroppedIn(front), if last.fate == Dropped then [last.hash] else []);
    }
  }

  lemma {:induction false} DroppedOf(hashes: seq<Hash>, fate: Fate)
    ensures DroppedIn(Leaving(hashes, fate)) == if fate == Dropped then hashes else []
  {
    if hashes != [] {
      var (front, last) := (hashes[..|hashes| - 1], hashes[|hashes| - 1]);
      DroppedOf(front, fate);
      assert Leaving(hashes, fate)[..|hashes| - 1] == Leaving(front, fate);
      assert hashes == front + [last];
    }
  }

  lemma DroppedLeaving(gone: seq<Departure>, hashes: seq<Hash>, fate: Fate)
    ensures DroppedIn(gone + Leaving(hashes, fate)) == DroppedIn(gone) + if fate == Dropped then hashes else []
  {
    DroppedConcat(gone, Leaving(hashes, fate));
    DroppedOf(hashes, fate);
  }

  /** What a step drops: everything when the connection is refused, and at the end of a request what
      was announced while its bytes were being taken. */
  ghost function DroppedBy(p: Peer, e: Event): seq<Hash>
    requires PeerOk(p) && Enabled(p, e)
  {
    if e.Refuse? then p.queue else if e.Drain? then p.queue[p.phase.sent..] else []
  }

  lemma StepDrops(p: Peer, e: Event)
    requires PeerOk(p) && Enabled(p, e)
    ensures DroppedIn(Step(p, e).gone) == DroppedIn(p.gone) + DroppedBy(p, e)
  {
    if e.Refuse? {
      DroppedLeaving(p.gone, p.queue, Dropped);
    } else if e.Drain? {
      var n := p.phase.sent;
      DroppedLeaving(p.gone, p.queue[..n], Requested);
      DroppedLeaving(p.gone + Leaving(p.queue[..n], Requested), p.queue[n..], Dropped);
      assert DroppedIn(p.gone) + [] == DroppedIn(p.gone);
    }
  }

  /** A step that drops hashes, or will: a refused connection, and hashes that are announced while the
      bytes of a request are being taken. */
  ghost predicate Disturbs(p: Peer, e: Event) {
    e.Refuse? || (p.phase.Draining? && e.Announce? && e.hashes != [])
  }

  ghost predicate Undisturbed(events: seq<Event>)
    requires Runs(events)
  {
    events == [] ||
    (var front := events[..|events| - 1];
     Undisturbed(front) && !Disturbs(After(front), events[|events| - 1]))
  }

  /** Something was dropped, or is in the queue and will be when the running request ends. */
  ghost predicate Doomed(p: Peer) {
    DroppedIn(p.gone) != [] || (p.phase.Draining? && p.phase.sent < |p.queue|)
  }

  lemma StepDooms(p: Peer, e: Event)
    requires PeerOk(p) && Enabled(p, e) && (p.phase.Connecting? ==> p.queue != [])
    ensures Doomed(Step(p, e)) <==> Doomed(p) || Disturbs(p, e)
  {
    StepDrops(p, e);
    if e.Announce? && e.hashes == [] {
      assert p.queue + e.hashes == p.queue;
    }
  }

  lemma {:induction false} ConnectingHasHashes(events: seq<Event>)
    requires Runs(events)
    ensures After(events).phase.Connecting? ==> After(events).queue != []
  {
    if events != [] {
      ConnectingHasHashes(events[..|events| - 1]);
    }
  }

  /** Every announced hash is asked for, sooner or later, exactly when no connection is refused and
      nothing is announced while the bytes of a request are being taken. */
  lemma {:induction false} DroppedExactlyWhenDisturbed(events: seq<Event>)
    requires Runs(events)
    ensures Doomed(After(events)) <==> !Undisturbed(events)
  {
    if events != [] {
      var front := events[..|events| - 1];
      DroppedExactlyWhenDisturbed(front);
      AnnouncedInOrder(front);
      ConnectingHasHashes(front);
      StepDooms(After(front), events[|events| - 1]);
    }
  }

  // The execution endpoint

  /** A response with hashes, from a peer. */
  datatype Announcement = Announcement(peer: PeerId, hashes: seq<Hash>, nextCursor: nat)

  /** What happens to one request: announcements while it connects, whether it does, and announcements
      while its bytes are being taken. */
  datatype Request = Request(connecting: seq<Announcement>, refused: bool, draining: seq<Announcement>)

  ghost function HashesFrom(announcements: seq<Announcement>, p: PeerId): seq<Hash> {
    if announcements == [] then []
    else
      var last := announcements[|announcements| - 1];
      HashesFrom(announcements[..|announcements| - 1], p) + if last.peer == p then last.hashes else []
  }

  /** Everything that is announced while a request lasts. */
  ghost function Waited(r: Request): seq<Announcement> {
    if r.refused then r.connecting else r.connecting + r.draining
  }

  ghost function Later(p: Peer, hashes: seq<Hash>): Peer {
    p.(queue := p.queue + hashes, announced := p.announced + hashes)
  }

  lemma LaterTwice(p: Peer, a: seq<Hash>, b: seq<Hash>)
    ensures Later(Later(p, a), b) == Later(p, a + b)
  {
    Associates(p.queue, a, b);
    Associates(p.announced, a, b);
  }

  lemma LaterNothing(p: Peer)
    ensures Later(p, []) == p
  {
  }

  lemma {:induction false} HashesConcat(a: seq<Announcement>, b: seq<Announcement>, p: PeerId)
    ensures HashesFrom(a + b, p) == HashesFrom(a, p) + HashesFrom(b, p)
  {
    if b == [] {
      assert a + b == a;
    } else {
      var front := b[..|b| - 1];
      HashesConcat(a, front, p);
      assert (a + b)[..|a + b| - 1] == a + front;
      Associates(HashesFrom(a, p), HashesFrom(front, p), if b[|b| - 1].peer == p then b[|b| - 1].hashes else []);
    }
  }

  /** What one request does to its peer: asked for is what was queued when the bytes were written;
      dropped is all of it if the connection is refused, or else what is announced after that. */
  ghost function AskedFor(before: Peer, r: Request, p: PeerId): Peer {
    var (early, late) := (HashesFrom(r.connecting, p), HashesFrom(r.draining, p));
    if r.refused then Peer([], Quiet, before.gone + Leaving(before.queue + early, Dropped), before.announced + early)
    else Peer([], Quiet, before.gone + Leaving(before.queue + early, Requested) + Leaving(late, Dropped),
              before.announced + early + late)
  }

  /** That is what its steps amount to. */
  lemma AskedForIs(before: Peer, r: Request, p: PeerId)
    requires before.phase.Quiet? && before.queue != []
    ensures var waiting := Later(Step(before, Flush), HashesFrom(r.connecting, p));
            && (r.refused ==> Step(waiting, Refuse) == AskedFor(before, r, p))
            && (!r.refused ==>
                  var draining := Later(Step(waiting, Connect), HashesFrom(r.draining, p));
                  draining.phase.Draining? && Step(draining, Drain) == AskedFor(before, r, p))
  {
    var (early, late) := (HashesFrom(r.connecting, p), HashesFrom(r.draining, p));
    var sent := before.queue + early;
    assert (sent + late)[..|sent|] == sent && (sent + late)[|sent|..] == late;
  }

  lemma AllLeft(before: Peer, r: Request, p: PeerId)
    requires PeerOk(before)
    ensures var after := AskedFor(before, r, p);
            before.announced <= HashesOf(after.gone) && before.announced <= after.announced && before.gone <= after.gone
  {
    var early := HashesFrom(r.connecting, p);
    HashesLeaving(before.gone, before.queue + early, if r.refused then Dropped else Requested);
    assert HashesOf(before.gone) + (before.queue + early) == before.announced + early;
    if !r.refused {
      HashesLeaving(before.gone + Leaving(before.queue + early, Requested), HashesFrom(r.draining, p), Dropped);
    }
  }

  lemma HashesGrow(a: seq<Departure>, b: seq<Departure>)
    requires a <= b
    ensures HashesOf(a) <= HashesOf(b)
  {
  }

  class HashRequester {
    var order: seq<PeerId>  // the peers in the order in which the dictionary lists them
    var queues: map<PeerId, seq<Hash>>
    var cursors: map<PeerId, nat>
    ghost var history: map<PeerId, seq<Event>>

    ghost predicate Valid()
      reads this
    {
      && (forall i, j :: 0 <= i < j < |order| ==> order[i] != order[j])
      && (forall p :: p in order ==> p in queues)
      && history.Keys == queues.Keys
      && (forall p :: p in history ==> Runs(history[p]) && After(history[p]).queue == queues[p])
      && (forall p :: p in cursors ==> cursors[p] == 0)
    }

    /** A peer as it is now; one that has announced nothing is fresh. */
    ghost function Now(p: PeerId): Peer
      requires Valid()
      reads this
    {
      if p in history then After(history[p]) else FRESH_PEER
    }

    ghost predicate AllQuiet()
      requires Valid()
      reads this
    {
      forall p :: p in history ==> Now(p).phase.Quiet?
    }

    constructor ()
      ensures Valid() && order == [] && history == map[]
    {
      order, queues, cursors, history := [], map[], map[], map[];
    }

    /** Notes a step of one peer that changes its queue to the given one. */
    method Note(p: PeerId, ghost e: Event, queue: seq<Hash>)
      requires Valid() && p in queues && Enabled(Now(p), e) && queue == Step(Now(p), e).queue
      modifies this`queues, this`history
      ensures Valid() && history.Keys == old(history).Keys
      ensures Now(p) == Step(old(Now(p)), e)
      ensures forall q :: q != p ==> Now(q) == old(Now(q))
    {
      RunsOn(history[p], e);
      queues, history := queues[p := queue], history[p := history[p] + [e]];
    }

    /** Makes sure that the peer has a queue. */
    method Open(p: PeerId)
      requires Valid()
      modifies this`order, this`queues, this`history
      ensures Valid() && history.Keys == old(history).Keys + {p}
      ensures order == if p in old(queues) then old(order) else old(order) + [p]
      ensures forall q :: Now(q) == old(Now(q))
    {
      if p !in queues {
        order, queues, history := order + [p], queues[p := []], history[p := []];
      }
    }

    /** A response queues its hashes. The request for the next page is built and not sent, so the
        cursor of the peer stays where it is. */
    method Receive(a: Announcement)
      requires Valid()
      modifies this
      ensures Valid() && history.Keys == old(history).Keys + {a.peer}
      ensures order == if a.peer in old(queues) then old(order) else old(order) + [a.peer]
      ensures forall q :: Now(q) == Later(old(Now(q)), if q == a.peer then a.hashes else [])
    {
      if a.peer !in cursors {
        cursors := cursors[a.peer := 0];
      }
      Open(a.peer);
      forall q ensures Later(Now(q), []) == Now(q) {
        LaterNothing(Now(q));
      }
      Note(a.peer, Announce(a.hashes), queues[a.peer] + a.hashes);
    }

    method ReceiveAll(announcements: seq<Announcement>)
      requires Valid()
      modifies this
      ensures Valid() && old(history).Keys <= history.Keys && old(order) <= order
      ensures forall q :: Now(q) == Later(old(Now(q)), HashesFrom(announcements, q))
    {
      if announcements == [] {
        forall q ensures Later(Now(q), []) == Now(q) {
          LaterNothing(Now(q));
        }
      } else {
        var (front, a) := (announcements[..|announcements| - 1], announcements[|announcements| - 1]);
        ReceiveAll(front);
        Receive(a);
        forall q ensures Now(q) == Later(old(Now(q)), HashesFrom(announcements, q)) {
          LaterTwice(old(Now(q)), HashesFrom(front, q), if q == a.peer then a.hashes else []);
        }
      }
    }

    /** A wait during which a peer is in the middle of a request: the step that begins it, and what
        is announced meanwhile. */
    method NoteAndWait(p: PeerId, ghost e: Event, announcements: seq<Announcement>)
      requires Valid() && p in queues && Enabled(Now(p), e) && Step(Now(p), e).queue == queues[p]
      modifies this
      ensures Valid() && old(history).Keys <= history.Keys && old(order) <= order
      ensures Now(p) == Later(Step(old(Now(p)), e), HashesFrom(announcements, p))
      ensures forall q :: q != p ==> Now(q) == Later(old(Now(q)), HashesFrom(announcements, q))
    {
      Note(p, e, queues[p]);
      ReceiveAll(announcements);
    }

    /** Asks a peer for what is queued for it, and clears its queue. `sent` is what the message holds
        when it is written. */
    method AskFor(p: PeerId, request: Request) returns (sent: Option<seq<Hash>>)
      requires Valid() && p in queues && queues[p] != [] && Now(p).phase.Quiet?
      modifies this
      ensures Valid() && old(history).Keys <= history.Keys && old(order) <= order
      ensures sent == if request.refused then None else Some(old(queues)[p] + HashesFrom(request.connecting, p))
      ensures Now(p) == AskedFor(old(Now(p)), request, p)
      ensures forall q :: q != p ==> Now(q) == Later(old(Now(q)), HashesFrom(Waited(request), q))
    {
      AskedForIs(Now(p), request, p);
      NoteAndWait(p, Flush, request.connecting);
      if request.refused {
        sent := None;
        Note(p, Refuse, []);
      } else {
        sent := Some(queues[p]);
        Write(p, request.draining);
        forall q | q != p ensures Now(q) == Later(old(Now(q)), HashesFrom(Waited(request), q)) {
          HashesConcat(request.connecting, request.draining, q);
          LaterTwice(old(Now(q)), HashesFrom(request.connecting, q), HashesFrom(request.draining, q));
        }
      }
    }

    /** Writes the request and clears the queue when its bytes are taken. */
    method Write(p: PeerId, draining: seq<Announcement>)
      requires Valid() && p in queues && Now(p).phase.Connecting?
      modifies this
      ensures Valid() && old(history).Keys <= history.Keys && old(order) <= order
      ensures var written := Later(Step(old(Now(p)), Connect), HashesFrom(draining, p));
              written.phase.Draining? && Now(p) == Step(written, Drain)
      ensures forall q :: q != p ==> Now(q) == Later(old(Now(q)), HashesFrom(draining, q))
    {
      NoteAndWait(p, Connect, draining);
      Note(p, Drain, []);
    }

    /** The visit to one peer: whatever happens meanwhile, all that it had announced leaves its queue,
        and no peer's record shrinks. */
    method AskOne(p: PeerId, request: Request)
      requires Valid() && AllQuiet() && p in queues
      modifies this
      ensures Valid() && AllQuiet() && old(order) <= order
      ensures old(Now(p)).announced <= HashesOf(Now(p).gone)
      ensures forall q :: old(Now(q)).announced <= Now(q).announced && old(Now(q)).gone <= Now(q).gone
    {
      ghost var before := Now(p);
      AnnouncedInOrder(history[p]);
      if |queues[p]| > 0 {
        var _ := AskFor(p, request);
        AllLeft(before, request, p);
      }
    }

    /** One pass of the cron loop over the peers. A peer that announces for the first time during a
        wait changes the dictionary that is being iterated over, which raises an exception; otherwise
        everything announced before the pass has been asked for or dropped. */
    method AskAll(requests: seq<Request>) returns (raised: bool)
      requires Valid() && AllQuiet() && |requests| >= |order|
      modifies this
      ensures Valid() && AllQuiet()
      ensures raised <==> order != old(order)
      ensures !raised ==> forall p :: p in order ==> old(Now(p)).announced <= HashesOf(Now(p).gone)
    {
      var peers := order;
      ghost var goals := map p | p in history :: Now(p).announced;
      raised := false;
      for i := 0 to |peers|
        invariant Valid() && AllQuiet() && order == peers
        invariant forall p :: p in peers ==> p in history && goals[p] <= Now(p).announced
        invariant forall j :: 0 <= j < i ==> goals[peers[j]] <= HashesOf(Now(peers[j]).gone)
      {
        AskOneMore(peers, i, requests[i], goals);
        if |order| != |peers| {
          return true;
        }
      }
    }

    /** One turn of that loop: what was reached for the peers before stays reached. */
    method AskOneMore(peers: seq<PeerId>, i: nat, request: Request, ghost goals: map<PeerId, seq<Hash>>)
      requires Valid() && AllQuiet() && order == peers && i < |peers|
      requires forall p :: p in peers ==> p in history && p in goals && goals[p] <= Now(p).announced
      requires forall j :: 0 <= j < i ==> goals[peers[j]] <= HashesOf(Now(peers[j]).gone)
      modifies this
      ensures Valid() && AllQuiet() && peers <= order
      ensures forall p :: p in peers ==> p in history && goals[p] <= Now(p).announced
      ensures forall j :: 0 <= j < i + 1 ==> goals[peers[j]] <= HashesOf(Now(peers[j]).gone)
    {
      AskOne(peers[i], request);
      forall p ensures HashesOf(old(Now(p)).gone) <= HashesOf(Now(p).gone) {
        HashesGrow(old(Now(p)).gone, Now(p).gone);
      }
    }
  }
}
