/** The event hub: a fan-out to bounded channels that drops for a subscriber whose buffer is full. */
module Hub {
  import opened Options

  /** How many events a subscriber's channel buffers. */
  const CAPACITY := 16

  /** What offering an event does to a subscriber's buffer: it never blocks. */
  function Offered<E>(buf: seq<E>, e: E): seq<E> { if |buf| < CAPACITY then buf + [e] else buf }

  // ----- The hub in place -----

  class Channel<E> {
    var buf: seq<E>
    var closed: bool

    constructor ()
      ensures buf == [] && !closed
    {
      buf, closed := [], false;
    }

    /** A send that gives up when the buffer is full; sending on a closed channel would panic. */
    method TrySend(e: E)
      requires !closed
      modifies this
      ensures buf == (if |old(buf)| < 16 then old(buf) + [e] else old(buf)) && !closed
    {
      if |buf| < CAPACITY {
        buf := buf + [e];
      }
    }

    method Receive() returns (e: E)
      requires buf != []
      modifies this
      ensures [e] + buf == old(buf) && closed == old(closed)
    {
      e := buf[0];
      buf := buf[1..];
    }

    /** Closing twice would panic. */
    method Close()
      requires !closed
      modifies this
      ensures closed && buf == old(buf)
    {
      closed := true;
    }
  }

  class EventHub<E> {
    var subs: set<Channel<E>>

    ghost predicate Valid()
      reads this, subs
    {
      forall ch :: ch in subs ==> !ch.closed && |ch.buf| <= CAPACITY
    }

    constructor ()
      ensures Valid() && subs == {}
    {
      subs := {};
    }

    method Subscribe() returns (ch: Channel<E>)
      requires Valid()
      modifies this
      ensures Valid() && fresh(ch) && ch.buf == [] && !ch.closed
      ensures subs == old(subs) + {ch}
    {
      ch := new Channel();
      subs := subs + {ch};
    }

    /** The cancel function of a subscription; calling it again does nothing. */
    method Cancel(ch: Channel<E>)
      requires Valid()
      modifies this, ch
      ensures Valid() && subs == old(subs) - {ch}
      ensures ch.buf == old(ch.buf)
      ensures ch.closed == (old(ch.closed) || ch in old(subs))
    {
      if ch in subs {
        subs := subs - {ch};
        ch.Close();
      }
    }

    method Publish(e: E)
      requires Valid()
      modifies subs
      ensures Valid() && subs == old(subs)
      ensures forall ch :: ch in subs ==>
        ch.buf == if |old(ch.buf)| < 16 then old(ch.buf) + [e] else old(ch.buf)
    {
      var rest := subs;
      while rest != {}
        invariant rest <= subs
        invariant forall ch :: ch in subs ==> !ch.closed
        invariant forall ch :: ch in subs ==> ch.buf == if ch in rest then old(ch.buf) else Offered(old(ch.buf), e)
        decreases rest
      {
        var ch :| ch in rest;
        ch.TrySend(e);
        rest := rest - {ch};
      }
    }
  }

  // ----- Interleavings -----

  type Sub = nat

  /** One event offered to one subscriber: how many events were buffered, and whether it was kept. */
  datatype Offer<E> = Offer(event: E, depth: nat, kept: bool)

  /** A channel with its history: what it was offered since it subscribed and what was received from it. */
  datatype Chan<E> = Chan(
    buf: seq<E>,
    closed: bool,
    received: seq<E>,
    offers: seq<Offer<E>>,
    since: nat,
    until: Option<nat>)

  /** A publish that holds the mutex and has still to visit some subscribers. */
  datatype Publishing<E> = Publishing(event: E, todo: set<Sub>)

  datatype State<E> = State(subs: set<Sub>, chans: map<Sub, Chan<E>>, lock: Option<Publishing<E>>, published: seq<E>)

  datatype Action<E> =
    | Subscribe(c: Sub)
    | Cancel(c: Sub)
    | PublishBegin(event: E)
    | Send(c: Sub)
    | PublishEnd
    | Receive(c: Sub)

  /** Receives may come at any moment, even while a publish holds the mutex. */
  ghost predicate Enabled<E>(st: State<E>, a: Action<E>) {
    match a
    case Subscribe(c) => st.lock.None? && c !in st.chans
    case Cancel(c) => st.lock.None? && c in st.chans
    case PublishBegin(_) => st.lock.None?
    case Send(c) => st.lock.Some? && c in st.lock.value.todo && c in st.chans
    case PublishEnd => st.lock.Some? && st.lock.value.todo == {}
    case Receive(c) => c in st.chans && st.chans[c].buf != []
  }

  ghost function Do<E>(st: State<E>, a: Action<E>): State<E>
    requires Enabled(st, a)
  {
    match a
    case Subscribe(c) =>
      st.(subs := st.subs + {c}, chans := st.chans[c := Chan([], false, [], [], |st.published|, None)])
    case Cancel(c) =>
      if c in st.subs
      then st.(subs := st.subs - {c},
               chans := st.chans[c := st.chans[c].(closed := true, until := Some(|st.published|))])
      else st
    case PublishBegin(e) => st.(lock := Some(Publishing(e, st.subs)), published := st.published + [e])
    case Send(c) =>
      var e := st.lock.value.event;
      var ch := st.chans[c];
      var ch' := ch.(buf := Offered(ch.buf, e), offers := ch.offers + [Offer(e, |ch.buf|, |ch.buf| < CAPACITY)]);
      st.(chans := st.chans[c := ch'], lock := Some(st.lock.value.(todo := st.lock.value.todo - {c})))
    case PublishEnd => st.(lock := None)
    case Receive(c) =>
      var ch := st.chans[c];
      st.(chans := st.chans[c := ch.(buf := ch.buf[1..], received := ch.received + [ch.buf[0]])])
  }

  ghost function Run<E>(st: State<E>, trace: seq<Action<E>>): State<E> {
    if trace == [] then st
    else
      var before := Run(st, trace[..|trace| - 1]);
      if Enabled(before, trace[|trace| - 1]) then Do(before, trace[|trace| - 1]) else before
  }

  function Events<E>(offers: seq<Offer<E>>): seq<E> {
    seq(|offers|, i requires 0 <= i < |offers| => offers[i].event)
  }

  function Kept<E>(offers: seq<Offer<E>>): seq<E> {
    if offers == [] then []
    else
      var last := offers[|offers| - 1];
      var rest := Kept(offers[..|offers| - 1]);
      if last.kept then rest + [last.event] else rest
  }

  /** The part of what was published that a subscriber has been offered so far. */
  ghost predicate OfferedUpTo<E>(st: State<E>, c: Sub, ch: Chan<E>) {
    var pending := st.lock.Some? && c in st.lock.value.todo;
    var end := if ch.until.Some? then ch.until.value else if pending then |st.published| - 1 else |st.published|;
    && 0 <= ch.since <= end <= |st.published|
    && Events(ch.offers) == st.published[ch.since..end]
    && (ch.until.Some? ==> !pending)
  }

  ghost predicate Delivered<E>(ch: Chan<E>) {
    && ch.received + ch.buf == Kept(ch.offers)
    && |ch.buf| <= CAPACITY
    && (forall i :: 0 <= i < |ch.offers| ==>
         ch.offers[i].depth <= CAPACITY && (ch.offers[i].kept <==> ch.offers[i].depth < CAPACITY))
  }

  /** A channel is closed and has an end exactly when it is no longer a subscriber; a publish visits subscribers. */
  ghost predicate Registered<E>(st: State<E>) {
    && st.subs <= st.chans.Keys
    && (forall c :: c in st.chans ==>
         (st.chans[c].closed <==> c !in st.subs) && (st.chans[c].until.Some? <==> c !in st.subs))
    && (st.lock.Some? ==>
         st.lock.value.todo <= st.subs && |st.published| > 0 && st.published[|st.published| - 1] == st.lock.value.event)
  }

  ghost predicate Safe<E>(st: State<E>) {
    Registered(st) && forall c :: c in st.chans ==> OfferedUpTo(st, c, st.chans[c]) && Delivered(st.chans[c])
  }

  /** A new hub is where every interleaving starts. */
  lemma EmptyIsSafe<E>()
    ensures var st: State<E> := State({}, map[], None, []); Safe(st)
  {}

  lemma StepRegistered<E>(st: State<E>, a: Action<E>)
    requires Registered(st) && Enabled(st, a)
    ensures Registered(Do(st, a))
  {}

  lemma StepOffered<E>(st: State<E>, a: Action<E>, c: Sub)
    requires Registered(st) && Enabled(st, a) && c in Do(st, a).chans
    requires c in st.chans ==> OfferedUpTo(st, c, st.chans[c])
    ensures OfferedUpTo(Do(st, a), c, Do(st, a).chans[c])
  {
    if a.Send? && a.c == c {
      var ch, ch' := st.chans[c], Do(st, a).chans[c];
      assert Events(ch'.offers) == Events(ch.offers) + [st.lock.value.event];
    }
  }

  lemma StepDelivered<E>(st: State<E>, a: Action<E>, c: Sub)
    requires Enabled(st, a) && c in Do(st, a).chans
    requires c in st.chans ==> Delivered(st.chans[c])
    ensures Delivered(Do(st, a).chans[c])
  {
    if a.Send? && a.c == c { SendDelivers(st.chans[c], st.lock.value.event); }
  }

  lemma StepSafe<E>(st: State<E>, a: Action<E>)
    requires Safe(st) && Enabled(st, a)
    ensures Safe(Do(st, a))
  {
    StepRegistered(st, a);
    var st' := Do(st, a);
    forall c | c in st'.chans ensures OfferedUpTo(st', c, st'.chans[c]) && Delivered(st'.chans[c]) {
      StepOffered(st, a, c);
      StepDelivered(st, a, c);
    }
    hide Registered, Enabled, Do, OfferedUpTo, Delivered;
  }

  lemma SendDelivers<E>(ch: Chan<E>, e: E)
    requires Delivered(ch)
    ensures var ch' := ch.(buf := Offered(ch.buf, e), offers := ch.offers + [Offer(e, |ch.buf|, |ch.buf| < CAPACITY)]);
      Delivered(ch')
  {
    var o := Offer(e, |ch.buf|, |ch.buf| < CAPACITY);
    assert (ch.offers + [o])[..|ch.offers|] == ch.offers;
  }

  /** Nothing is ever sent on a closed channel, and no channel is closed twice: a send goes to a subscriber, and a
      cancel closes a channel only while it is one. */
  lemma NoPanic<E>(st: State<E>, trace: seq<Action<E>>, a: Action<E>)
    requires Safe(st) && Enabled(Run(st, trace), a)
    ensures var s := Run(st, trace);
      && (a.Send? ==> !s.chans[a.c].closed)
      && (a.Cancel? && a.c in s.subs ==> !s.chans[a.c].closed)
  {
    EveryInterleavingDelivers(st, trace);
  }

  /** In every interleaving, for each subscriber: what it received followed by what is buffered is what was kept of
      its offers, in order; its offers are everything published since it subscribed, but for a publish that has not
      reached it yet; and an offer is dropped exactly when the buffer is full. */
  lemma {:induction false} EveryInterleavingDelivers<E>(st: State<E>, trace: seq<Action<E>>)
    requires Safe(st)
    ensures Safe(Run(st, trace))
  {
    if trace != [] {
      var before := Run(st, trace[..|trace| - 1]);
      EveryInterleavingDelivers(st, trace[..|trace| - 1]);
      if Enabled(before, trace[|trace| - 1]) { StepSafe(before, trace[|trace| - 1]); }
    }
  }

  /** `where` shows that s is an in-order subsequence of t. */
  ghost predicate Embeds<E>(s: seq<E>, t: seq<E>, where: seq<nat>) {
    && |where| == |s|
    && (forall i :: 0 <= i < |s| ==> where[i] < |t| && t[where[i]] == s[i])
    && (forall i, j :: 0 <= i < j < |s| ==> where[i] < where[j])
  }

  lemma {:induction false} KeptEmbeds<E>(offers: seq<Offer<E>>) returns (where: seq<nat>)
    ensures Embeds(Kept(offers), Events(offers), where)
  {
    if offers == [] {
      where := [];
    } else {
      var k := |offers| - 1;
      var init := KeptEmbeds(offers[..k]);
      where := if offers[k].kept then init + [k] else init;
      assert forall i :: 0 <= i < k ==> Events(offers)[i] == Events(offers[..k])[i];
    }
  }

  /** So received followed by buffered is an in-order subsequence of what was published since the subscription, and
      all of it when nothing was offered to a full buffer. */
  lemma ReceivedInOrder<E>(st: State<E>, trace: seq<Action<E>>, c: Sub) returns (where: seq<nat>)
    requires Safe(st) && c in Run(st, trace).chans
    ensures var s := Run(st, trace);
      var ch := s.chans[c];
      && ch.since <= |s.published|
      && Embeds(ch.received + ch.buf, s.published[ch.since..], where)
      && ((forall i :: 0 <= i < |ch.offers| ==> ch.offers[i].depth < CAPACITY) ==>
           ch.received + ch.buf == Events(ch.offers))
  {
    EveryInterleavingDelivers(st, trace);
    var s := Run(st, trace);
    var ch := s.chans[c];
    assert OfferedUpTo(s, c, ch) && Delivered(ch);
    where := KeptEmbeds(ch.offers);
    if forall i :: 0 <= i < |ch.offers| ==> ch.offers[i].depth < CAPACITY { AllKept(ch.offers); }
  }

  lemma {:induction false} AllKept<E>(offers: seq<Offer<E>>)
    requires forall i :: 0 <= i < |offers| ==> offers[i].kept
    ensures Kept(offers) == Events(offers)
  {
    if offers != [] {
      AllKept(offers[..|offers| - 1]);
      assert Events(offers) == Events(offers[..|offers| - 1]) + [offers[|offers| - 1].event];
    }
  }
}
