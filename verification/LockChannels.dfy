/** Facts about what one FIFO channel holds, stated on the channel and on sets of requests. */
module LockChannels {
  import opened LockQueue
  import opened LockProtocol

  /** A message of type `t` about `e` is in flight. */
  ghost predicate Has(ch: seq<Packet>, t: MessageType, e: Entry) {
    exists a :: 0 <= a < |ch| && ch[a].msg.mtype == t && ch[a].about == e
  }

  ghost predicate HasReply(ch: seq<Packet>) {
    exists a :: 0 <= a < |ch| && ch[a].msg.mtype == REPLY_LOCK
  }

  lemma HasAppend(ch: seq<Packet>, p: Packet, t: MessageType, e: Entry)
    ensures Has(ch + [p], t, e) <==> Has(ch, t, e) || (p.msg.mtype == t && p.about == e)
  {
    if Has(ch, t, e) {
      var a :| 0 <= a < |ch| && ch[a].msg.mtype == t && ch[a].about == e;
      assert (ch + [p])[a] == ch[a];
    }
    if p.msg.mtype == t && p.about == e {
      assert (ch + [p])[|ch|] == p;
    }
  }

  lemma HasTail(ch: seq<Packet>, t: MessageType, e: Entry)
    requires ch != []
    ensures Has(ch, t, e) <==> Has(ch[1..], t, e) || (ch[0].msg.mtype == t && ch[0].about == e)
  {
    if Has(ch, t, e) && !(ch[0].msg.mtype == t && ch[0].about == e) {
      var a :| 0 <= a < |ch| && ch[a].msg.mtype == t && ch[a].about == e;
      assert ch[1..][a - 1] == ch[a];
    }
    if Has(ch[1..], t, e) {
      var a :| 0 <= a < |ch[1..]| && ch[1..][a].msg.mtype == t && ch[1..][a].about == e;
      assert ch[a + 1] == ch[1..][a];
    }
  }

  /** The messages of type `t` in flight from `i` announce exactly what `i` said and the receiver
      has not heard, each of them once. */
  ghost predicate Announced(ch: seq<Packet>, t: MessageType, i: nat, said: set<Entry>, heard: set<Entry>) {
    && (forall a :: 0 <= a < |ch| && ch[a].msg.mtype == t ==>
          && ch[a].about.id == i && ch[a].about in said && ch[a].about !in heard
          && !Has(ch[..a], t, ch[a].about))
    && (forall e :: e in said && e.id == i ==> e in heard || Has(ch, t, e))
  }

  lemma AnnouncedAppendOther(ch: seq<Packet>, p: Packet, t: MessageType, i: nat, said: set<Entry>, heard: set<Entry>)
    requires Announced(ch, t, i, said, heard) && p.msg.mtype != t
    ensures Announced(ch + [p], t, i, said, heard)
  {
    forall a | 0 <= a < |ch + [p]| && (ch + [p])[a].msg.mtype == t
      ensures !Has((ch + [p])[..a], t, (ch + [p])[a].about)
    {
      assert (ch + [p])[..a] == ch[..a];
    }
    forall e | e in said && e.id == i
      ensures e in heard || Has(ch + [p], t, e)
    {
      HasAppend(ch, p, t, e);
    }
  }

  lemma AnnouncedAppend(ch: seq<Packet>, p: Packet, t: MessageType, i: nat, said: set<Entry>, heard: set<Entry>)
    requires Announced(ch, t, i, said, heard)
    requires p.msg.mtype == t && p.about.id == i && p.about !in said && p.about !in heard
    ensures Announced(ch + [p], t, i, said + {p.about}, heard)
  {
    var r := ch + [p];
    forall a | 0 <= a < |r| && r[a].msg.mtype == t
      ensures !Has(r[..a], t, r[a].about)
    {
      assert r[..a] == ch[..a];
      if a == |ch| {
        assert ch[..a] == ch;
      }
    }
    forall e | e in said + {p.about} && e.id == i
      ensures e in heard || Has(r, t, e)
    {
      HasAppend(ch, p, t, e);
    }
  }

  lemma PrefixOfTail(ch: seq<Packet>, a: nat)
    requires a + 1 <= |ch|
    ensures ch[1..][..a] == ch[..a + 1][1..]
  {}

  lemma AnnouncedTailOther(ch: seq<Packet>, t: MessageType, i: nat, said: set<Entry>, heard: set<Entry>)
    requires ch != [] && Announced(ch, t, i, said, heard) && ch[0].msg.mtype != t
    ensures Announced(ch[1..], t, i, said, heard)
  {
    forall a | 0 <= a < |ch[1..]| && ch[1..][a].msg.mtype == t
      ensures ch[1..][a] == ch[a + 1] && !Has(ch[1..][..a], t, ch[a + 1].about)
    {
      PrefixOfTail(ch, a);
      HasTail(ch[..a + 1], t, ch[a + 1].about);
    }
    forall e | e in said && e.id == i
      ensures e in heard || Has(ch[1..], t, e)
    {
      HasTail(ch, t, e);
    }
  }

  lemma AnnouncedTail(ch: seq<Packet>, t: MessageType, i: nat, said: set<Entry>, heard: set<Entry>)
    requires ch != [] && Announced(ch, t, i, said, heard) && ch[0].msg.mtype == t
    ensures Announced(ch[1..], t, i, said, heard + {ch[0].about})
  {
    forall a | 0 <= a < |ch[1..]| && ch[1..][a].msg.mtype == t
      ensures ch[1..][a] == ch[a + 1] && ch[a + 1].about != ch[0].about
      ensures !Has(ch[1..][..a], t, ch[a + 1].about)
    {
      PrefixOfTail(ch, a);
      HasTail(ch[..a + 1], t, ch[a + 1].about);
    }
    forall e | e in said && e.id == i
      ensures e in heard + {ch[0].about} || Has(ch[1..], t, e)
    {
      HasTail(ch, t, e);
    }
  }

  /** What others say or hear does not matter. */
  lemma AnnouncedFrame(ch: seq<Packet>, t: MessageType, i: nat,
                       said: set<Entry>, heard: set<Entry>, said': set<Entry>, heard': set<Entry>)
    requires Announced(ch, t, i, said, heard)
    requires forall e: Entry :: e.id == i ==> (e in said <==> e in said') && (e in heard <==> e in heard')
    ensures Announced(ch, t, i, said', heard')
  {}

  /** FIFO: behind a REQUEST or SERVER_WRITE of `i`, every RELEASE `i` sent before it has been
      heard or is in front of it. */
  ghost predicate ReleasesFirst(ch: seq<Packet>, i: nat, done: set<Entry>, released: set<Entry>) {
    forall a :: 0 <= a < |ch| && ch[a].msg.mtype == REQUEST_LOCK ==>
      forall e: Entry :: e in done && e.id == i && Less(e, ch[a].about) ==> e in released || Has(ch[..a], RELEASE_LOCK, e)
  }

  /** A write in flight still has the end of its own critical section behind it. */
  ghost predicate WritesInside(ch: seq<Packet>, i: nat, entered: set<Entry>, released: set<Entry>) {
    forall a :: 0 <= a < |ch| && ch[a].msg.mtype == SERVER_WRITE ==>
      && ch[a].about.id == i && ch[a].msg.node == i && ch[a].about in entered && ch[a].about !in released
      && !Has(ch[..a], RELEASE_LOCK, ch[a].about)
  }

  /** A REPLY to the holder of `ticket` comes after every earlier request of its sender. */
  ghost predicate ReplyOk(ch: seq<Packet>, i: nat, ticket: Entry, issued: set<Entry>, known: set<Entry>) {
    && (forall a, b :: 0 <= a < b < |ch| ==> ch[a].msg.mtype != REPLY_LOCK || ch[b].msg.mtype != REPLY_LOCK)
    && (forall a :: 0 <= a < |ch| && ch[a].msg.mtype == REPLY_LOCK ==>
         forall f :: f in issued && f.id == i && Less(f, ticket) ==> f in known || Has(ch[..a], REQUEST_LOCK, f))
  }

  lemma ReleasesFirstAppend(ch: seq<Packet>, p: Packet, i: nat, done: set<Entry>, released: set<Entry>)
    requires ReleasesFirst(ch, i, done, released)
    requires p.msg.mtype == REQUEST_LOCK ==> Announced(ch, RELEASE_LOCK, i, done, released)
    ensures ReleasesFirst(ch + [p], i, done, released)
  {
    var r := ch + [p];
    forall a, e | 0 <= a < |r| && r[a].msg.mtype == REQUEST_LOCK && e in done && e.id == i && Less(e, r[a].about)
      ensures e in released || Has(r[..a], RELEASE_LOCK, e)
    {
      assert r[..a] == ch[..a];
      if a == |ch| {
        assert ch[..a] == ch;
      }
    }
  }

  lemma ReleasesFirstTail(ch: seq<Packet>, i: nat, done: set<Entry>, released: set<Entry>, released': set<Entry>)
    requires ch != [] && ReleasesFirst(ch, i, done, released) && released <= released'
    requires ch[0].msg.mtype == RELEASE_LOCK ==> ch[0].about in released'
    ensures ReleasesFirst(ch[1..], i, done, released')
  {
    forall a, e | 0 <= a < |ch[1..]| && ch[1..][a].msg.mtype == REQUEST_LOCK && e in done && e.id == i && Less(e, ch[1..][a].about)
      ensures e in released' || Has(ch[1..][..a], RELEASE_LOCK, e)
    {
      assert ch[1..][a] == ch[a + 1];
      PrefixOfTail(ch, a);
      HasTail(ch[..a + 1], RELEASE_LOCK, e);
    }
  }

  lemma WritesInsideAppend(ch: seq<Packet>, p: Packet, i: nat, entered: set<Entry>, released: set<Entry>)
    requires WritesInside(ch, i, entered, released)
    requires p.msg.mtype == SERVER_WRITE ==>
      p.about.id == i && p.msg.node == i && p.about in entered && p.about !in released && !Has(ch, RELEASE_LOCK, p.about)
    ensures WritesInside(ch + [p], i, entered, released)
  {
    var r := ch + [p];
    forall a | 0 <= a < |r| && r[a].msg.mtype == SERVER_WRITE
      ensures !Has(r[..a], RELEASE_LOCK, r[a].about)
    {
      assert r[..a] == ch[..a];
      if a == |ch| {
        assert ch[..a] == ch;
      }
    }
  }

  lemma WritesInsideTail(ch: seq<Packet>, i: nat, entered: set<Entry>, released: set<Entry>, released': set<Entry>)
    requires ch != [] && WritesInside(ch, i, entered, released)
    requires released' == released || (ch[0].msg.mtype == RELEASE_LOCK && released' == released + {ch[0].about})
    ensures WritesInside(ch[1..], i, entered, released')
  {
    forall a | 0 <= a < |ch[1..]| && ch[1..][a].msg.mtype == SERVER_WRITE
      ensures ch[1..][a] == ch[a + 1] && ch[a + 1].about !in released'
      ensures !Has(ch[1..][..a], RELEASE_LOCK, ch[a + 1].about)
    {
      PrefixOfTail(ch, a);
      HasTail(ch[..a + 1], RELEASE_LOCK, ch[a + 1].about);
    }
  }

  lemma ReplyOkAppendOther(ch: seq<Packet>, p: Packet, i: nat, ticket: Entry, issued: set<Entry>, known: set<Entry>)
    requires ReplyOk(ch, i, ticket, issued, known) && p.msg.mtype != REPLY_LOCK
    ensures ReplyOk(ch + [p], i, ticket, issued, known)
    ensures HasReply(ch + [p]) <==> HasReply(ch)
  {
    var r := ch + [p];
    forall a | 0 <= a < |r| && r[a].msg.mtype == REPLY_LOCK
      ensures a < |ch| && r[..a] == ch[..a]
    {}
    if HasReply(ch) {
      var a :| 0 <= a < |ch| && ch[a].msg.mtype == REPLY_LOCK;
      assert r[a] == ch[a];
    }
  }

  lemma ReplyOkAppend(ch: seq<Packet>, p: Packet, i: nat, ticket: Entry, issued: set<Entry>, known: set<Entry>)
    requires !HasReply(ch) && p.msg.mtype == REPLY_LOCK
    requires Announced(ch, REQUEST_LOCK, i, issued, known)
    ensures ReplyOk(ch + [p], i, ticket, issued, known)
    ensures HasReply(ch + [p])
  {
    var r := ch + [p];
    assert r[|ch|] == p && r[..|ch|] == ch;
  }

  lemma ReplyOkTail(ch: seq<Packet>, i: nat, ticket: Entry, issued: set<Entry>, known: set<Entry>, known': set<Entry>)
    requires ch != [] && ReplyOk(ch, i, ticket, issued, known) && known <= known'
    requires ch[0].msg.mtype == REQUEST_LOCK ==> ch[0].about in known'
    ensures ReplyOk(ch[1..], i, ticket, issued, known')
    ensures HasReply(ch[1..]) <==> HasReply(ch) && ch[0].msg.mtype != REPLY_LOCK
  {
    forall a, f | 0 <= a < |ch[1..]| && ch[1..][a].msg.mtype == REPLY_LOCK && f in issued && f.id == i && Less(f, ticket)
      ensures f in known' || Has(ch[1..][..a], REQUEST_LOCK, f)
    {
      assert ch[1..][a] == ch[a + 1];
      PrefixOfTail(ch, a);
      HasTail(ch[..a + 1], REQUEST_LOCK, f);
    }
    if HasReply(ch) && ch[0].msg.mtype != REPLY_LOCK {
      var a :| 0 <= a < |ch| && ch[a].msg.mtype == REPLY_LOCK;
      assert ch[1..][a - 1] == ch[a];
    }
    if HasReply(ch[1..]) {
      var a :| 0 <= a < |ch[1..]| && ch[1..][a].msg.mtype == REPLY_LOCK;
      assert ch[a + 1] == ch[1..][a];
    }
  }

  lemma NoReplyTail(ch: seq<Packet>)
    requires ch != [] && !HasReply(ch)
    ensures !HasReply(ch[1..])
  {
    forall a | 0 <= a < |ch[1..]| ensures ch[1..][a].msg.mtype != REPLY_LOCK {
      assert ch[1..][a] == ch[a + 1];
    }
  }

  lemma NoReplyAppend(ch: seq<Packet>, p: Packet)
    requires !HasReply(ch) && p.msg.mtype != REPLY_LOCK
    ensures !HasReply(ch + [p])
  {}

  lemma HeadIsFirst(ch: seq<Packet>, t: MessageType, e: Entry)
    requires ch != []
    ensures !Has(ch[..0], t, e)
  {}

  ghost predicate RequestStamps(ch: seq<Packet>) {
    forall a :: 0 <= a < |ch| && ch[a].msg.mtype == REQUEST_LOCK ==> ch[a].about == Entry(ch[a].msg.ts, ch[a].msg.node)
  }

  /** Of two requests of `i` that the receiver knows, it has seen the first one end. */
  ghost predicate OneLive(i: nat, known: set<Entry>, done: set<Entry>, released: set<Entry>) {
    forall e: Entry, f: Entry :: e in done && e.id == i && f in known && f.id == i && Less(e, f) ==> e in released
  }

  /** Everything the lock needs of the channel from `i` to a receiver that knows `known` and has
      seen `released` end. */
  ghost predicate Link(ch: seq<Packet>, i: nat, issued: set<Entry>, known: set<Entry>,
                       done: set<Entry>, released: set<Entry>, entered: set<Entry>)
  {
    && RequestStamps(ch)
    && Announced(ch, REQUEST_LOCK, i, issued, known)
    && Announced(ch, RELEASE_LOCK, i, done, released)
    && ReleasesFirst(ch, i, done, released)
    && WritesInside(ch, i, entered, released)
    && OneLive(i, known, done, released)
  }

  /** Requests and releases of other nodes leave a link alone. */
  lemma LinkFrame(ch: seq<Packet>, i: nat, issued: set<Entry>, known: set<Entry>, done: set<Entry>, released: set<Entry>, entered: set<Entry>,
                  issued': set<Entry>, known': set<Entry>, done': set<Entry>, released': set<Entry>, entered': set<Entry>)
    requires Link(ch, i, issued, known, done, released, entered)
    requires forall e: Entry :: e.id == i ==> (e in issued <==> e in issued') && (e in known <==> e in known')
    requires forall e: Entry :: e.id == i ==> (e in done <==> e in done') && (e in released <==> e in released')
    requires entered <= entered'
    ensures Link(ch, i, issued', known', done', released', entered')
  {
    AnnouncedFrame(ch, REQUEST_LOCK, i, issued, known, issued', known');
    AnnouncedFrame(ch, RELEASE_LOCK, i, done, released, done', released');
  }

  lemma LinkAppendReply(ch: seq<Packet>, p: Packet, i: nat, issued: set<Entry>, known: set<Entry>, done: set<Entry>, released: set<Entry>, entered: set<Entry>)
    requires Link(ch, i, issued, known, done, released, entered) && p.msg.mtype == REPLY_LOCK
    ensures Link(ch + [p], i, issued, known, done, released, entered)
  {
    AnnouncedAppendOther(ch, p, REQUEST_LOCK, i, issued, known);
    AnnouncedAppendOther(ch, p, RELEASE_LOCK, i, done, released);
    ReleasesFirstAppend(ch, p, i, done, released);
    WritesInsideAppend(ch, p, i, entered, released);
  }

  /** A write sent from inside a critical section that has not been released. */
  lemma LinkAppendWrite(ch: seq<Packet>, p: Packet, i: nat, issued: set<Entry>, known: set<Entry>, done: set<Entry>, released: set<Entry>, entered: set<Entry>)
    requires Link(ch, i, issued, known, done, released, entered)
    requires p.msg.mtype == SERVER_WRITE && p.msg.node == i && p.about.id == i
    requires p.about in entered && p.about !in done && released <= done
    ensures Link(ch + [p], i, issued, known, done, released, entered)
  {
    AnnouncedAppendOther(ch, p, REQUEST_LOCK, i, issued, known);
    AnnouncedAppendOther(ch, p, RELEASE_LOCK, i, done, released);
    ReleasesFirstAppend(ch, p, i, done, released);
    assert !Has(ch, RELEASE_LOCK, p.about);
    WritesInsideAppend(ch, p, i, entered, released);
  }

  lemma LinkAppendRequest(ch: seq<Packet>, p: Packet, i: nat, issued: set<Entry>, known: set<Entry>, done: set<Entry>, released: set<Entry>, entered: set<Entry>)
    requires Link(ch, i, issued, known, done, released, entered)
    requires p.msg.mtype == REQUEST_LOCK && p.about == Entry(p.msg.ts, p.msg.node) && p.about.id == i
    requires p.about !in issued && p.about !in known
    ensures Link(ch + [p], i, issued + {p.about}, known, done, released, entered)
  {
    AnnouncedAppend(ch, p, REQUEST_LOCK, i, issued, known);
    AnnouncedAppendOther(ch, p, RELEASE_LOCK, i, done, released);
    ReleasesFirstAppend(ch, p, i, done, released);
    WritesInsideAppend(ch, p, i, entered, released);
  }

  /** The release of the newest request of `i`, which the receiver already knows. */
  lemma LinkAppendRelease(ch: seq<Packet>, p: Packet, i: nat, issued: set<Entry>, known: set<Entry>, done: set<Entry>, released: set<Entry>, entered: set<Entry>)
    requires Link(ch, i, issued, known, done, released, entered)
    requires p.msg.mtype == RELEASE_LOCK && p.about.id == i && p.about !in done && released <= done
    requires forall f :: f in issued && f.id == i ==> f in known && !Less(p.about, f)
    requires known <= issued
    ensures Link(ch + [p], i, issued, known, done + {p.about}, released, entered)
  {
    AnnouncedAppendOther(ch, p, REQUEST_LOCK, i, issued, known);
    AnnouncedAppend(ch, p, RELEASE_LOCK, i, done, released);
    WritesInsideAppend(ch, p, i, entered, released);
    assert forall a :: 0 <= a < |ch| ==> ch[a].msg.mtype != REQUEST_LOCK;
  }

  /** Delivery of a message that is neither a request nor a release. */
  lemma LinkTailOther(ch: seq<Packet>, i: nat, issued: set<Entry>, known: set<Entry>, done: set<Entry>, released: set<Entry>, entered: set<Entry>)
    requires Link(ch, i, issued, known, done, released, entered)
    requires ch != [] && ch[0].msg.mtype != REQUEST_LOCK && ch[0].msg.mtype != RELEASE_LOCK
    ensures Link(ch[1..], i, issued, known, done, released, entered)
  {
    AnnouncedTailOther(ch, REQUEST_LOCK, i, issued, known);
    AnnouncedTailOther(ch, RELEASE_LOCK, i, done, released);
    ReleasesFirstTail(ch, i, done, released, released);
    WritesInsideTail(ch, i, entered, released, released);
  }

  /** Delivery of a request: everything the sender completed before it has been seen to end. */
  lemma LinkTailRequest(ch: seq<Packet>, i: nat, issued: set<Entry>, known: set<Entry>, done: set<Entry>, released: set<Entry>, entered: set<Entry>)
    requires Link(ch, i, issued, known, done, released, entered)
    requires ch != [] && ch[0].msg.mtype == REQUEST_LOCK
    ensures forall e :: e in done && e.id == i && Less(e, ch[0].about) ==> e in released
    ensures Link(ch[1..], i, issued, known + {ch[0].about}, done, released, entered)
  {
    AnnouncedTail(ch, REQUEST_LOCK, i, issued, known);
    AnnouncedTailOther(ch, RELEASE_LOCK, i, done, released);
    ReleasesFirstTail(ch, i, done, released, released);
    WritesInsideTail(ch, i, entered, released, released);
    forall e | e in done && e.id == i && Less(e, ch[0].about)
      ensures e in released
    {
      HeadIsFirst(ch, RELEASE_LOCK, e);
    }
  }

  lemma LinkTailRelease(ch: seq<Packet>, i: nat, issued: set<Entry>, known: set<Entry>, done: set<Entry>, released: set<Entry>, entered: set<Entry>)
    requires Link(ch, i, issued, known, done, released, entered)
    requires ch != [] && ch[0].msg.mtype == RELEASE_LOCK
    ensures Link(ch[1..], i, issued, known, done, released + {ch[0].about}, entered)
  {
    AnnouncedTailOther(ch, REQUEST_LOCK, i, issued, known);
    AnnouncedTail(ch, RELEASE_LOCK, i, done, released);
    ReleasesFirstTail(ch, i, done, released, released + {ch[0].about});
    WritesInsideTail(ch, i, entered, released, released + {ch[0].about});
  }
}
