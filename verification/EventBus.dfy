/** The event bus: bounded subscriber channels, and publishers that send to a private snapshot of the
    subscriber lists, so that subscribing, cancelling, receiving and other publishers may run between
    any two sends. */
module EventBus {
  import opened Text

  datatype Event = Event(typ: string, serverId: string)

  const CAPACITY: nat := 64

  // ---------------------------------------------------------------- the interleaved system

  /** One attempt to send: who published, what, and how many events the channel held. */
  datatype Offer = Offer(publisher: nat, event: Event, backlog: nat)

  /** A subscriber's channel. `since` and `until` hold, per publisher, how much it had published when
      the subscription began and when it was cancelled (done is closed). */
  datatype Chan = Chan(typ: string, since: seq<nat>, until: Option<seq<nat>>,
                       queue: seq<Event>, received: seq<Event>, offers: seq<Offer>)

  /** `flights[p]` is what publisher p's snapshot still has to serve, `logs[p]` what it has published,
      the event in flight included. */
  datatype Bus = Bus(subs: map<string, seq<nat>>, chans: seq<Chan>, flights: seq<seq<nat>>, logs: seq<seq<Event>>)

  datatype Step =
    | Subscribe(typ: string)
    | Cancel(c: nat)
    | Begin(p: nat, event: Event)   // Publish takes its snapshot
    | Send(p: nat)                  // Publish sends to the next channel, or drops
    | Receive(c: nat)

  function Lookup(subs: map<string, seq<nat>>, typ: string): seq<nat> {
    if typ in subs then subs[typ] else []
  }

  function Remove(s: seq<nat>, c: nat): (r: seq<nat>)
    ensures multiset(r) == multiset(s)[c := if c in s then multiset(s)[c] - 1 else 0]
  {
    if s == [] then []
    else
      assert s == [s[0]] + s[1..];
      if s[0] == c then s[1..] else [s[0]] + Remove(s[1..], c)
  }

  function Lengths(logs: seq<seq<Event>>): seq<nat> { seq(|logs|, p requires 0 <= p < |logs| => |logs[p]|) }

  predicate Enabled(b: Bus, s: Step) {
    match s
    case Subscribe(_) => true
    case Cancel(c) => c < |b.chans|
    case Begin(p, _) => p < |b.flights| && p < |b.logs| && b.flights[p] == []
    case Send(p) => p < |b.flights| && p < |b.logs| && b.flights[p] != [] && b.logs[p] != [] &&
      b.flights[p][0] < |b.chans|
    case Receive(c) => c < |b.chans| && b.chans[c].queue != []
  }

  function Offered(c: Chan, p: nat, ev: Event): Chan {
    c.(offers := c.offers + [Offer(p, ev, |c.queue|)],
       queue := if |c.queue| < CAPACITY then c.queue + [ev] else c.queue)
  }

  function Last<T>(s: seq<T>): T
    requires s != []
  {
    s[|s| - 1]
  }

  function Next(b: Bus, s: Step): Bus
    requires Enabled(b, s)
  {
    match s
    case Subscribe(typ) =>
      b.(subs := b.subs[typ := Lookup(b.subs, typ) + [|b.chans|]],
         chans := b.chans + [Chan(typ, Lengths(b.logs), None, [], [], [])])
    case Cancel(c) =>
      if b.chans[c].until.Some? then b
      else
        var typ := b.chans[c].typ;
        b.(subs := b.subs[typ := Remove(Lookup(b.subs, typ), c)],
           chans := b.chans[c := b.chans[c].(until := Some(Lengths(b.logs)))])
    case Begin(p, ev) =>
      b.(flights := b.flights[p := Lookup(b.subs, ev.typ) + Lookup(b.subs, "*")],
         logs := b.logs[p := b.logs[p] + [ev]])
    case Send(p) =>
      var c := b.flights[p][0];
      b.(flights := b.flights[p := b.flights[p][1..]],
         chans := b.chans[c := Offered(b.chans[c], p, Last(b.logs[p]))])
    case Receive(c) =>
      var ch := b.chans[c];
      b.(chans := b.chans[c := ch.(queue := ch.queue[1..], received := ch.received + [ch.queue[0]])])
  }

  ghost predicate IsRun(bs: seq<Bus>, steps: seq<Step>) {
    && |bs| == |steps| + 1
    && forall i :: 0 <= i < |steps| ==> Enabled(bs[i], steps[i]) && bs[i + 1] == Next(bs[i], steps[i])
  }

  function Idle(publishers: nat): Bus {
    Bus(map[], [], seq(publishers, _ => []), seq(publishers, _ => []))
  }

  // ---------------------------------------------------------------- what a subscriber is owed

  /** How often a subscription to `sub` is served an event of type `typ`: a wildcard subscriber finds
      itself in both halves of the snapshot when the event's own type is "*". */
  function Copies(typ: string, sub: string): nat {
    (if typ == sub then 1 else 0) + (if sub == "*" then 1 else 0)
  }

  function Repeat(ev: Event, n: nat): seq<Event> { if n == 0 then [] else [ev] + Repeat(ev, n - 1) }

  /** The unbounded log a subscriber should see. */
  function Owed(log: seq<Event>, sub: string): seq<Event> {
    if log == [] then [] else Owed(log[..|log| - 1], sub) + Repeat(Last(log), Copies(Last(log).typ, sub))
  }

  /** The two ends of a channel's window lie within the logs. */
  ghost predicate Shaped(b: Bus, c: Chan) {
    && |c.since| == |b.logs|
    && (c.until.Some? ==> |c.until.value| == |b.logs|)
    && forall p :: 0 <= p < |b.logs| ==>
         c.since[p] <= (if c.until.Some? then c.until.value[p] else |b.logs[p]|) <= |b.logs[p]|
  }

  /** What `p` published between the subscription and its cancellation. */
  function Window(b: Bus, c: Chan, p: nat): seq<Event>
    requires Shaped(b, c) && p < |b.logs|
  {
    b.logs[p][c.since[p]..if c.until.Some? then c.until.value[p] else |b.logs[p]|]
  }

  /** The offers that found room. */
  function Accepted(offers: seq<Offer>): seq<Event> {
    if offers == [] then []
    else Accepted(offers[..|offers| - 1]) + (if Last(offers).backlog < CAPACITY then [Last(offers).event] else [])
  }

  function From(offers: seq<Offer>, p: nat): seq<Event> {
    if offers == [] then []
    else From(offers[..|offers| - 1], p) + (if Last(offers).publisher == p then [Last(offers).event] else [])
  }

  /** The channel's own books: everything accepted is received or still queued, in order; never more
      than 64 queued; no offer found more in the queue than had been offered before. */
  ghost predicate Booked(c: Chan) {
    && Accepted(c.offers) == c.received + c.queue
    && |c.queue| <= CAPACITY
    && |c.queue| <= |c.offers|
    && forall k :: 0 <= k < |c.offers| ==> c.offers[k].backlog <= k && c.offers[k].backlog <= CAPACITY
  }

  function Pending(b: Bus, c: nat, p: nat): nat
    requires p < |b.flights|
  {
    multiset(b.flights[p])[c]
  }

  /** What publisher p has offered channel c, and what its snapshot still holds for c. */
  function Shown(b: Bus, c: nat, p: nat): seq<Event>
    requires c < |b.chans| && p < |b.logs| == |b.flights| && b.logs[p] != []
  {
    From(b.chans[c].offers, p) + Repeat(Last(b.logs[p]), Pending(b, c, p))
  }

  /** What publisher p has offered channel c, with what its snapshot still holds for c, is exactly
      what c is owed. */
  ghost predicate Served(b: Bus, c: nat, p: nat)
    requires c < |b.chans| && p < |b.logs| == |b.flights|
  {
    && Shaped(b, b.chans[c])
    && (b.flights[p] != [] ==> b.logs[p] != [])
    && (if b.logs[p] == [] then From(b.chans[c].offers, p) == Owed(Window(b, b.chans[c], p), b.chans[c].typ)
        else Shown(b, c, p) == Owed(Window(b, b.chans[c], p), b.chans[c].typ))
  }

  function Entries(subs: map<string, seq<nat>>, typ: string, c: nat): nat { multiset(Lookup(subs, typ))[c] }

  predicate Live(b: Bus, typ: string, c: nat) {
    c < |b.chans| && b.chans[c].until.None? && b.chans[c].typ == typ
  }

  /** Every list holds the live subscriptions of its type, each once. */
  ghost predicate Listed(b: Bus) {
    forall typ: string, c: nat :: Entries(b.subs, typ, c) == if Live(b, typ, c) then 1 else 0
  }

  ghost predicate Flying(b: Bus) {
    && |b.flights| == |b.logs|
    && forall p :: 0 <= p < |b.flights| ==>
         (b.flights[p] != [] ==> b.logs[p] != []) && forall c :: c in b.flights[p] ==> c < |b.chans|
  }

  ghost predicate Sound(b: Bus) {
    && Listed(b) && Flying(b)
    && (forall c :: 0 <= c < |b.chans| ==> Booked(b.chans[c]))
    && forall c, p :: 0 <= c < |b.chans| && 0 <= p < |b.logs| ==> Served(b, c, p)
  }

  // ---------------------------------------------------------------- every step keeps it

  lemma EntriesAfterUpdate(subs: map<string, seq<nat>>, typ: string, s: seq<nat>, other: string, c: nat)
    ensures Entries(subs[typ := s], other, c) == if other == typ then multiset(s)[c] else Entries(subs, other, c)
  {
  }

  lemma CountAppended(s: seq<nat>, x: nat, c: nat)
    ensures multiset(s + [x])[c] == multiset(s)[c] + if c == x then 1 else 0
  {
  }

  lemma CountRemoved(s: seq<nat>, x: nat, c: nat)
    ensures multiset(Remove(s, x))[c] == if c == x && multiset(s)[c] > 0 then multiset(s)[c] - 1 else multiset(s)[c]
  {
  }

  lemma ListedAt(b: Bus, typ: string, c: nat)
    requires Listed(b)
    ensures Entries(b.subs, typ, c) == if Live(b, typ, c) then 1 else 0
  {
  }

  lemma ListedSubscribe(b: Bus, added: string, typ: string, c: nat)
    requires Listed(b)
    ensures var b' := Next(b, Subscribe(added)); Entries(b'.subs, typ, c) == if Live(b', typ, c) then 1 else 0
  {
    ListedAt(b, typ, c);
    hide Listed;
    var list := Lookup(b.subs, added);
    CountAppended(list, |b.chans|, c);
    EntriesAfterUpdate(b.subs, added, list + [|b.chans|], typ, c);
    assert typ == added ==> Entries(b.subs, typ, c) == multiset(Lookup(b.subs, added))[c];
    hide Entries, Lookup;
  }

  lemma ListedCancel(b: Bus, x: nat, typ: string, c: nat)
    requires Listed(b) && x < |b.chans| && b.chans[x].until.None?
    ensures var b' := Next(b, Cancel(x)); Entries(b'.subs, typ, c) == if Live(b', typ, c) then 1 else 0
  {
    ListedAt(b, typ, c);
    hide Listed;
    var own := b.chans[x].typ;
    var list := Lookup(b.subs, own);
    CountRemoved(list, x, c);
    EntriesAfterUpdate(b.subs, own, Remove(list, x), typ, c);
    assert typ == own ==> Entries(b.subs, typ, c) == multiset(Lookup(b.subs, own))[c];
    hide Entries, Lookup, Remove;
  }

  lemma ListedStep(b: Bus, s: Step)
    requires Listed(b) && Enabled(b, s)
    ensures Listed(Next(b, s))
  {
    var b' := Next(b, s);
    hide Lookup, Remove, Entries;
    forall typ: string, c: nat ensures Entries(b'.subs, typ, c) == if Live(b', typ, c) then 1 else 0 {
      if s.Subscribe? {
        ListedSubscribe(b, s.typ, typ, c);
      } else if s.Cancel? && b.chans[s.c].until.None? {
        ListedCancel(b, s.c, typ, c);
      } else {
        ListedAt(b, typ, c);
        assert b'.subs == b.subs && Live(b', typ, c) == Live(b, typ, c);
      }
    }
  }

  lemma SnapshotCount(b: Bus, typ: string, c: nat)
    requires Listed(b)
    ensures multiset(Lookup(b.subs, typ) + Lookup(b.subs, "*"))[c] ==
      (if Live(b, typ, c) then 1 else 0) + if Live(b, "*", c) then 1 else 0
  {
    ListedAt(b, typ, c);
    ListedAt(b, "*", c);
  }

  lemma FlyingStep(b: Bus, s: Step)
    requires Listed(b) && Flying(b) && Enabled(b, s)
    ensures Flying(Next(b, s))
  {
    hide Listed, Remove, Lookup;
    var b' := Next(b, s);
    forall p | 0 <= p < |b'.flights|
      ensures (b'.flights[p] != [] ==> b'.logs[p] != []) && forall c :: c in b'.flights[p] ==> c < |b'.chans|
    {
      forall c | c in b'.flights[p] ensures c < |b'.chans| {
        if s.Begin? && p == s.p {
          SnapshotCount(b, s.event.typ, c);
          assert multiset(b'.flights[p])[c] > 0;
        } else {
          assert c in b.flights[p];
        }
      }
    }
  }

  lemma BookedStep(c: Chan, p: nat, ev: Event)
    requires Booked(c)
    ensures Booked(Offered(c, p, ev))
    ensures c.queue != [] ==> Booked(c.(queue := c.queue[1..], received := c.received + [c.queue[0]]))
  {
    var o := Offered(c, p, ev).offers;
    assert o[..|o| - 1] == c.offers;
    assert c.queue != [] ==> c.received + c.queue == c.received + [c.queue[0]] + c.queue[1..];
    assert c.received + (c.queue + [ev]) == c.received + c.queue + [ev];
  }

  lemma FromSnoc(offers: seq<Offer>, o: Offer, p: nat)
    ensures From(offers + [o], p) == From(offers, p) + if o.publisher == p then [o.event] else []
  {
    assert (offers + [o])[..|offers|] == offers;
  }

  lemma OwedSnoc(log: seq<Event>, ev: Event, sub: string)
    ensures Owed(log + [ev], sub) == Owed(log, sub) + Repeat(ev, Copies(ev.typ, sub))
  {
    assert (log + [ev])[..|log|] == log;
  }

  /** The window of a channel after publisher `p` has logged one more event. */
  lemma WindowGrows(b: Bus, b': Bus, c: Chan, p: nat, ev: Event)
    requires p < |b.logs| && b'.logs == b.logs[p := b.logs[p] + [ev]] && Shaped(b, c)
    ensures Shaped(b', c)
    ensures Window(b', c, p) == if c.until.None? then Window(b, c, p) + [ev] else Window(b, c, p)
  {
  }

  /** A new snapshot holds a live channel as often as it is owed the event, a cancelled one never. */
  lemma SnapshotIsFair(b: Bus, c: nat, p: nat, ev: Event)
    requires Listed(b) && Enabled(b, Begin(p, ev)) && c < |b.chans|
    ensures var ch := b.chans[c];
            Pending(Next(b, Begin(p, ev)), c, p) == if ch.until.None? then Copies(ev.typ, ch.typ) else 0
  {
    SnapshotCount(b, ev.typ, c);
  }

  lemma ServedIdle(b: Bus, c: nat, p: nat)
    requires c < |b.chans| && p < |b.logs| == |b.flights| && b.flights[p] == []
    requires Served(b, c, p)
    ensures Shaped(b, b.chans[c]) && From(b.chans[c].offers, p) == Owed(Window(b, b.chans[c], p), b.chans[c].typ)
  {
    var offered := From(b.chans[c].offers, p);
    assert offered + [] == offered;
    assert b.logs[p] != [] ==> Repeat(Last(b.logs[p]), Pending(b, c, p)) == [];
    hide From, Owed, Window;
  }

  lemma ServedFromEquation(b: Bus, c: nat, p: nat)
    requires c < |b.chans| && p < |b.logs| == |b.flights| && b.logs[p] != [] && Shaped(b, b.chans[c])
    requires From(b.chans[c].offers, p) + Repeat(Last(b.logs[p]), Pending(b, c, p)) ==
      Owed(Window(b, b.chans[c], p), b.chans[c].typ)
    ensures Served(b, c, p)
  {
    hide From, Owed, Window, Repeat, Pending, Shaped;
  }

  lemma OwedGrows(ch: Chan, before: seq<Event>, after: seq<Event>, ev: Event, pending: nat, offered: seq<Event>)
    requires offered == Owed(before, ch.typ)
    requires after == if ch.until.None? then before + [ev] else before
    requires pending == if ch.until.None? then Copies(ev.typ, ch.typ) else 0
    ensures offered + Repeat(ev, pending) == Owed(after, ch.typ)
  {
    if ch.until.None? {
      OwedSnoc(before, ev, ch.typ);
    } else {
      assert Repeat(ev, 0) == [];
    }
  }

  lemma ServedBegin(b: Bus, c: nat, p: nat, ev: Event)
    requires Listed(b) && |b.flights| == |b.logs| && c < |b.chans| && p < |b.logs| && b.flights[p] == []
    requires Served(b, c, p)
    ensures Served(Next(b, Begin(p, ev)), c, p)
  {
    ServedIdle(b, c, p);
    SnapshotIsFair(b, c, p, ev);
    var b', ch := Next(b, Begin(p, ev)), b.chans[c];
    hide Served, From, Owed, Repeat, Listed, Pending, Copies, Lookup;
    WindowGrows(b, b', ch, p, ev);
    OwedGrows(ch, Window(b, ch, p), Window(b', ch, p), ev, Pending(b', c, p), From(ch.offers, p));
    ServedFromEquation(b', c, p);
  }

  lemma ServedBeginOther(b: Bus, c: nat, p: nat, q: nat, ev: Event)
    requires Flying(b) && c < |b.chans| && p < |b.logs| && q < |b.logs| && b.flights[q] == [] && q != p
    requires Served(b, c, p)
    ensures Served(Next(b, Begin(q, ev)), c, p)
  {
    hide From, Owed, Lookup, Repeat;
    var b' := Next(b, Begin(q, ev));
    assert Window(b', b.chans[c], p) == Window(b, b.chans[c], p);
  }

  predicate SameWindow(c: Chan, d: Chan) { c.typ == d.typ && c.since == d.since && c.until == d.until }

  lemma ServedCarries(b: Bus, b': Bus, c: nat, p: nat)
    requires c < |b.chans| && c < |b'.chans| && p < |b.logs| == |b.flights| == |b'.flights|
    requires b'.logs == b.logs && SameWindow(b.chans[c], b'.chans[c]) && Pending(b', c, p) == Pending(b, c, p)
    requires b'.flights[p] != [] ==> b.logs[p] != []
    requires From(b'.chans[c].offers, p) == From(b.chans[c].offers, p)
    requires Served(b, c, p)
    ensures Served(b', c, p)
  {
    hide From, Owed, Repeat;
  }

  lemma PendingSend(b: Bus, c: nat, q: nat)
    requires Enabled(b, Send(q))
    ensures Pending(b, c, q) == Pending(Next(b, Send(q)), c, q) + if c == b.flights[q][0] then 1 else 0
  {
    assert b.flights[q] == [b.flights[q][0]] + b.flights[q][1..];
  }

  lemma RepeatMore(ev: Event, n: nat)
    ensures Repeat(ev, n + 1) == [ev] + Repeat(ev, n)
  {
  }

  /** A send moves one copy from what the snapshot still holds to what has been offered. */
  lemma SendMovesOne(b: Bus, c: nat, p: nat)
    requires Enabled(b, Send(p)) && |b.flights| == |b.logs| && c < |b.chans| && c == b.flights[p][0]
    ensures Shown(Next(b, Send(p)), c, p) == Shown(b, c, p)
  {
    hide From, Repeat;
    var b', ch, ev := Next(b, Send(p)), b.chans[c], Last(b.logs[p]);
    FromSnoc(ch.offers, Offer(p, ev, |ch.queue|), p);
    PendingSend(b, c, p);
    assert b'.chans[c].offers == ch.offers + [Offer(p, ev, |ch.queue|)];
    hide Next, Pending, Enabled;
    RepeatMore(ev, Pending(b', c, p));
    Associative(From(ch.offers, p), [ev], Repeat(ev, Pending(b', c, p)));
  }

  lemma ServedSend(b: Bus, c: nat, p: nat)
    requires Enabled(b, Send(p)) && |b.flights| == |b.logs| && c < |b.chans| && c == b.flights[p][0]
    requires Served(b, c, p)
    ensures Served(Next(b, Send(p)), c, p)
  {
    hide From, Owed, Repeat, Pending;
    SendMovesOne(b, c, p);
    assert SameWindow(b.chans[c], Next(b, Send(p)).chans[c]);
  }

  lemma ServedMeansLogged(b: Bus, c: nat, p: nat)
    requires c < |b.chans| && p < |b.logs| == |b.flights| && Served(b, c, p)
    ensures b.flights[p] != [] ==> b.logs[p] != []
  {
  }

  lemma ServedSendOther(b: Bus, c: nat, p: nat, q: nat)
    requires Enabled(b, Send(q)) && |b.flights| == |b.logs| && c < |b.chans| && p < |b.logs| &&
      (p != q || c != b.flights[q][0])
    requires Served(b, c, p)
    ensures Served(Next(b, Send(q)), c, p)
  {
    hide Served, Owed, Repeat;
    var b' := Next(b, Send(q));
    var x := b.flights[q][0];
    PendingSend(b, c, q);
    FromSnoc(b.chans[x].offers, Offer(q, Last(b.logs[q]), |b.chans[x].queue|), p);
    hide From;
    assert From(b.chans[x].offers, p) + [] == From(b.chans[x].offers, p);
    assert b.flights[p] != [] ==> b.logs[p] != [] by { ServedMeansLogged(b, c, p); }
    ServedCarries(b, b', c, p);
  }

  lemma ServedElse(b: Bus, s: Step, c: nat, p: nat)
    requires Enabled(b, s) && !s.Begin? && !s.Send? && |b.flights| == |b.logs|
    requires c < |b.chans| && p < |b.logs| && Served(b, c, p)
    ensures Served(Next(b, s), c, p)
  {
    var b' := Next(b, s);
    if s.Cancel? && s.c == c && b.chans[c].until.None? {
      hide Owed, From, Repeat;
      assert Window(b', b'.chans[c], p) == Window(b, b.chans[c], p);
    } else {
      ServedMeansLogged(b, c, p);
      hide Served;
      ServedCarries(b, b', c, p);
    }
  }

  lemma ServedNew(b: Bus, typ: string, p: nat)
    requires Flying(b) && p < |b.logs|
    ensures Served(Next(b, Subscribe(typ)), |b.chans|, p)
  {
    var b' := Next(b, Subscribe(typ));
    assert |b.chans| !in b.flights[p];
    assert Window(b', b'.chans[|b.chans|], p) == [];
  }

  lemma BookedSame(c: Chan, d: Chan)
    requires Booked(c) && d.offers == c.offers && d.queue == c.queue && d.received == c.received
    ensures Booked(d)
  {
  }

  lemma BookedNext(b: Bus, s: Step, c: nat)
    requires Enabled(b, s) && c < |Next(b, s).chans| && (c < |b.chans| ==> Booked(b.chans[c]))
    ensures Booked(Next(b, s).chans[c])
  {
    var b' := Next(b, s);
    if c == |b.chans| {
      assert b'.chans[c].offers == [] && b'.chans[c].queue == [] && b'.chans[c].received == [];
    } else {
      var ch := b.chans[c];
      hide Booked;
      if s.Send? && c == b.flights[s.p][0] {
        BookedStep(ch, s.p, Last(b.logs[s.p]));
      } else if s.Receive? && c == s.c {
        BookedStep(ch, 0, Event("", ""));
      } else {
        BookedSame(ch, b'.chans[c]);
      }
    }
  }

  lemma AllBookedStep(b: Bus, s: Step)
    requires Enabled(b, s) && forall c :: 0 <= c < |b.chans| ==> Booked(b.chans[c])
    ensures forall c :: 0 <= c < |Next(b, s).chans| ==> Booked(Next(b, s).chans[c])
  {
    hide Booked, Next, Enabled;
    forall c | 0 <= c < |Next(b, s).chans| ensures Booked(Next(b, s).chans[c]) {
      BookedNext(b, s, c);
    }
  }

  lemma ServedStep(b: Bus, s: Step, c: nat, p: nat)
    requires Listed(b) && Flying(b) && Enabled(b, s) && c < |Next(b, s).chans| && p < |b.logs|
    requires c < |b.chans| ==> Served(b, c, p)
    ensures |Next(b, s).flights| == |Next(b, s).logs| == |b.logs| && Served(Next(b, s), c, p)
  {
    hide Served, Listed;
    if c == |b.chans| { ServedNew(b, s.typ, p); }
    else if s.Begin? && p == s.p { ServedBegin(b, c, p, s.event); }
    else if s.Begin? { ServedBeginOther(b, c, p, s.p, s.event); }
    else if s.Send? && p == s.p && c == b.flights[p][0] { ServedSend(b, c, p); }
    else if s.Send? { ServedSendOther(b, c, p, s.p); }
    else { ServedElse(b, s, c, p); }
  }

  lemma LogsStay(b: Bus, s: Step)
    requires Enabled(b, s)
    ensures |Next(b, s).logs| == |b.logs|
  {
  }

  lemma SoundStep(b: Bus, s: Step)
    requires Sound(b) && Enabled(b, s)
    ensures Sound(Next(b, s))
  {
    var b' := Next(b, s);
    ListedStep(b, s);
    FlyingStep(b, s);
    AllBookedStep(b, s);
    hide Booked, Served, Listed, Next, Enabled;
    forall c, p | 0 <= c < |b'.chans| && 0 <= p < |b'.logs| ensures Served(b', c, p) {
      assert |b'.logs| == |b.logs| by { LogsStay(b, s); }
      ServedStep(b, s, c, p);
    }
  }

  /** Delivery, for any number of publishers and subscribers and every interleaving: at every moment
      each channel holds the books above, and each publisher has offered it, in order, exactly the
      events it published between subscription and cancellation that match, less what its snapshot
      still has to send. */
  lemma {:induction false} DeliveryOnEveryRun(bs: seq<Bus>, steps: seq<Step>, publishers: nat, i: nat)
    requires IsRun(bs, steps) && bs[0] == Idle(publishers) && i < |bs|
    ensures Sound(bs[i])
  {
    if i == 0 {
      assert forall typ: string, c: nat :: Entries(map[], typ, c) == 0;
    } else {
      DeliveryOnEveryRun(bs, steps, publishers, i - 1);
      SoundStep(bs[i - 1], steps[i - 1]);
    }
  }

  // ---------------------------------------------------------------- what a single publisher's subscriber sees

  /** `a` is `b` with some elements left out. */
  predicate Subsequence(a: seq<Event>, b: seq<Event>) {
    a == [] || (b != [] && var init := b[..|b| - 1];
      Subsequence(a, init) || (Last(a) == Last(b) && Subsequence(a[..|a| - 1], init)))
  }

  function Matching(log: seq<Event>, sub: string): seq<Event> {
    if log == [] then []
    else Matching(log[..|log| - 1], sub) + if sub == "*" || Last(log).typ == sub then [Last(log)] else []
  }

  lemma SplitEqual(a: seq<Event>, b: seq<Event>, c: seq<Event>, d: seq<Event>)
    requires |a| >= |c| && |b| >= |d|
    ensures a + b == c + d <==> a == c && b == d
  {
    if a + b == c + d {
      assert |a + b| == |c + d|;
      assert a == (a + b)[..|a|] && c == (c + d)[..|c|];
      assert b == (a + b)[|a|..] && d == (c + d)[|c|..];
    }
  }

  /** No event of type "*" meets a wildcard subscriber. */
  predicate NoDoubles(log: seq<Event>, sub: string) {
    sub != "*" || forall i :: 0 <= i < |log| ==> log[i].typ != "*"
  }

  lemma NoDoublesSnoc(log: seq<Event>, sub: string)
    requires log != []
    ensures NoDoubles(log, sub) <==> NoDoubles(log[..|log| - 1], sub) && (sub != "*" || Last(log).typ != "*")
  {
    InitLast(log);
  }

  lemma CopiesRepeated(ev: Event, sub: string)
    ensures var served, kept := Repeat(ev, Copies(ev.typ, sub)), if sub == "*" || ev.typ == sub then [ev] else [];
            |served| >= |kept| && (served == kept <==> sub != "*" || ev.typ != "*")
  {
    assert Repeat(ev, 1) == [ev];
    assert Repeat(ev, 2) == [ev, ev];
  }

  lemma {:induction false} OwedIsMatching(log: seq<Event>, sub: string)
    ensures NoDoubles(log, sub) <==> Owed(log, sub) == Matching(log, sub)
    ensures |Owed(log, sub)| >= |Matching(log, sub)|
  {
    if log != [] {
      var init, ev := log[..|log| - 1], Last(log);
      OwedIsMatching(init, sub);
      NoDoublesSnoc(log, sub);
      CopiesRepeated(ev, sub);
      SplitEqual(Owed(init, sub), Repeat(ev, Copies(ev.typ, sub)),
                 Matching(init, sub), if sub == "*" || ev.typ == sub then [ev] else []);
      hide NoDoubles, Repeat, Copies;
    }
  }

  lemma {:induction false} AcceptedIsSubsequence(offers: seq<Offer>)
    requires forall i :: 0 <= i < |offers| ==> offers[i].publisher == 0
    ensures Subsequence(Accepted(offers), From(offers, 0))
    ensures Accepted(offers) == From(offers, 0) <==> forall i :: 0 <= i < |offers| ==> offers[i].backlog < 64
    ensures |Accepted(offers)| <= |From(offers, 0)| == |offers|
  {
    if offers != [] {
      var init := offers[..|offers| - 1];
      AcceptedIsSubsequence(init);
      assert offers == init + [Last(offers)];
      var a, f, ev := Accepted(init), From(init, 0), Last(offers).event;
      assert (f + [ev])[..|f|] == f && (a + [ev])[..|a|] == a;
      assert From(offers, 0) == f + [ev];
      if Last(offers).backlog < CAPACITY {
        assert Accepted(offers) == a + [ev];
      } else {
        assert Accepted(offers) == a;
      }
    }
  }

  lemma {:induction false} SubsequenceExtends(a: seq<Event>, b: seq<Event>, tail: seq<Event>)
    requires Subsequence(a, b)
    ensures Subsequence(a, b + tail)
  {
    if tail == [] {
      assert b + tail == b;
    } else {
      SubsequenceExtends(a, b, tail[..|tail| - 1]);
      assert (b + tail)[..|b + tail| - 1] == b + tail[..|tail| - 1];
    }
  }

  lemma {:induction false} OneLog(bs: seq<Bus>, steps: seq<Step>, i: nat)
    requires IsRun(bs, steps) && bs[0] == Idle(1) && i < |bs|
    ensures |bs[i].logs| == 1
  {
    if i > 0 {
      OneLog(bs, steps, i - 1);
      assert bs[i] == Next(bs[i - 1], steps[i - 1]);
    }
  }

  lemma {:induction false} OnlyPublisher(bs: seq<Bus>, steps: seq<Step>, i: nat, c: nat, k: nat)
    requires IsRun(bs, steps) && bs[0] == Idle(1) && i < |bs| && c < |bs[i].chans| && k < |bs[i].chans[c].offers|
    ensures bs[i].chans[c].offers[k].publisher == 0 && |bs[i].logs| == 1
  {
    OneLog(bs, steps, i);
    if i > 0 && c < |bs[i - 1].chans| && k < |bs[i - 1].chans[c].offers| {
      OnlyPublisher(bs, steps, i - 1, c, k);
    }
    if i > 0 {
      OneLog(bs, steps, i - 1);
      assert bs[i] == Next(bs[i - 1], steps[i - 1]);
    }
  }

  /** One publisher: what a subscriber received and has queued is an in-order part of the matching
      events published while it was subscribed (wildcard events count twice for a wildcard
      subscriber); nothing is missing once the snapshot is served if and only if no offer met a full
      queue; and the first 64 offers never do. */
  lemma SubscriberSeesTheLog(bs: seq<Bus>, steps: seq<Step>, i: nat, c: nat)
    requires IsRun(bs, steps) && bs[0] == Idle(1) && i < |bs| && c < |bs[i].chans|
    ensures |bs[i].logs| == 1 == |bs[i].flights| && Shaped(bs[i], bs[i].chans[c])
    ensures var b, ch := bs[i], bs[i].chans[c];
            var window := Window(b, ch, 0);
            && Subsequence(ch.received + ch.queue, Owed(window, ch.typ))
            && (b.flights[0] == [] ==>
                 (ch.received + ch.queue == Owed(window, ch.typ) <==>
                   forall k :: 0 <= k < |ch.offers| ==> ch.offers[k].backlog < 64))
            && (forall k :: 0 <= k < |ch.offers| && k < 64 ==> ch.offers[k].backlog < 64)
            && (NoDoubles(window, ch.typ) ==>
                 Subsequence(ch.received + ch.queue, Matching(window, ch.typ)))
  {
    DeliveryOnEveryRun(bs, steps, 1, i);
    OneLog(bs, steps, i);
    var b, ch := bs[i], bs[i].chans[c];
    assert Served(b, c, 0) && Booked(ch);
    forall k | 0 <= k < |ch.offers| ensures ch.offers[k].publisher == 0 { OnlyPublisher(bs, steps, i, c, k); }
    AcceptedIsSubsequence(ch.offers);
    OwedIsMatching(Window(b, ch, 0), ch.typ);
    if b.logs[0] != [] {
      SubsequenceExtends(Accepted(ch.offers), From(ch.offers, 0), Repeat(Last(b.logs[0]), Pending(b, c, 0)));
      assert b.flights[0] == [] ==>
        From(ch.offers, 0) + Repeat(Last(b.logs[0]), Pending(b, c, 0)) == From(ch.offers, 0);
    }
  }

  /** Cancelling twice is cancelling once; it leaves every other channel, every queue and every
      snapshot already taken as they were, and removes exactly its own channel from the lists. */
  lemma CancelIsExact(b: Bus, c: nat)
    requires c < |b.chans| && Listed(b)
    ensures var b' := Next(b, Cancel(c));
            && Next(b', Cancel(c)) == b'
            && b'.flights == b.flights && b'.logs == b.logs && |b'.chans| == |b.chans|
            && (forall d :: 0 <= d < |b.chans| && d != c ==> b'.chans[d] == b.chans[d])
            && b'.chans[c].queue == b.chans[c].queue && b'.chans[c].received == b.chans[c].received
    ensures forall typ: string, d: nat ::
              Entries(Next(b, Cancel(c)).subs, typ, d) == if d == c then 0 else Entries(b.subs, typ, d)
  {
    ListedStep(b, Cancel(c));
    hide Entries, Lookup;
    forall typ: string, d: nat
      ensures Entries(Next(b, Cancel(c)).subs, typ, d) == if d == c then 0 else Entries(b.subs, typ, d)
    {
      ListedAt(b, typ, d);
      ListedAt(Next(b, Cancel(c)), typ, d);
    }
  }

  // ---------------------------------------------------------------- one whole publication

  lemma SendIsEnabled(b: Bus, p: nat)
    requires Flying(b) && p < |b.flights| && b.flights[p] != []
    ensures Enabled(b, Send(p))
  {
    assert b.flights[p][0] in b.flights[p];
  }

  /** Publisher `p` sends to everything left in its snapshot. */
  ghost function Flush(b: Bus, p: nat): Bus
    requires Sound(b) && p < |b.flights|
    decreases if p < |b.flights| then |b.flights[p]| else 0
  {
    if b.flights[p] == [] then b
    else
      SendIsEnabled(b, p);
      SoundStep(b, Send(p));
      Flush(Next(b, Send(p)), p)
  }

  lemma FlushUnfolds(b: Bus, p: nat)
    requires Sound(b) && Enabled(b, Send(p))
    ensures Sound(Next(b, Send(p))) && Flush(b, p) == Flush(Next(b, Send(p)), p)
  {
    SoundStep(b, Send(p));
  }

  lemma {:induction false} FlushServes(b: Bus, p: nat)
    requires Sound(b) && p < |b.flights|
    ensures var b' := Flush(b, p);
            && b'.subs == b.subs && b'.logs == b.logs && |b'.chans| == |b.chans| && b'.flights == b.flights[p := []]
    decreases if p < |b.flights| then |b.flights[p]| else 0
  {
    if b.flights[p] != [] {
      SendIsEnabled(b, p);
      SoundStep(b, Send(p));
      FlushServes(Next(b, Send(p)), p);
    }
  }

  lemma {:induction false} FlushSends(b: Bus, p: nat, c: nat)
    requires Sound(b) && p < |b.flights| && c < |b.chans|
    ensures var b' := Flush(b, p);
            && |b'.chans| == |b.chans|
            && (Pending(b, c, p) == 0 ==> b'.chans[c] == b.chans[c])
            && (Pending(b, c, p) == 1 ==> b.logs[p] != [] && b'.chans[c] == Offered(b.chans[c], p, Last(b.logs[p])))
    decreases if p < |b.flights| then |b.flights[p]| else 0
  {
    if b.flights[p] != [] {
      SendIsEnabled(b, p);
      SoundStep(b, Send(p));
      PendingSend(b, c, p);
      hide Sound;
      FlushSends(Next(b, Send(p)), p, c);
      hide Flush;
    }
  }

  /** An undisturbed Publish of an event whose type is not "*" offers it exactly once to every live
      subscription of its type or of "*", and touches no other channel. */
  lemma PublishOffersOnce(b: Bus, p: nat, ev: Event, c: nat)
    requires Sound(b) && Enabled(b, Begin(p, ev)) && c < |b.chans| && ev.typ != "*"
    ensures Sound(Next(b, Begin(p, ev))) && |Flush(Next(b, Begin(p, ev)), p).chans| == |b.chans|
    ensures Flush(Next(b, Begin(p, ev)), p).chans[c] ==
              if Live(b, ev.typ, c) || Live(b, "*", c) then Offered(b.chans[c], p, ev) else b.chans[c]
  {
    SoundStep(b, Begin(p, ev));
    SnapshotCount(b, ev.typ, c);
    FlushSends(Next(b, Begin(p, ev)), p, c);
  }

  // ---------------------------------------------------------------- the program

  /** The queue of channel `c` after `event` is published: one event longer when the channel is a live
      subscriber with room. */
  function Reached(b: Bus, c: nat, queue: seq<Event>, event: Event): seq<Event> {
    if |queue| < CAPACITY && (Live(b, event.typ, c) || Live(b, "*", c)) then queue + [event] else queue
  }

  /** A Go slice: a backing array and the length in use. */
  datatype Slice = Slice(data: array<nat>, len: nat)

  /** The local variables of a Publish call: its event, its copy of the lists, and the loop position. */
  datatype Publication = Publication(event: Event, data: array<nat>, next: nat)

  lemma TailAround(s: seq<nat>, i: nat)
    requires 0 < i < |s|
    ensures s[..i] == [s[0]] + s[1..][..i - 1]
    ensures s[1..][i - 1] == s[i] && s[1..][i..] == s[i + 1..]
  {
  }

  lemma {:induction false} RemoveSplices(s: seq<nat>, c: nat, i: nat)
    requires i < |s| && s[i] == c && c !in s[..i]
    ensures Remove(s, c) == s[..i] + s[i + 1..]
  {
    if i > 0 {
      TailAround(s, i);
      assert s[0] != c by { assert s[..i][0] == s[0]; }
      assert c !in s[1..][..i - 1];
      RemoveSplices(s[1..], c, i - 1);
      Associative([s[0]], s[1..][..i - 1], s[i + 1..]);
    }
  }

  lemma EntriesMeanListed(s: seq<nat>, c: nat)
    ensures multiset(s)[c] > 0 <==> c in s
  {
  }

  /** append(s, x): in place when the backing array has room, in a new one otherwise. */
  method AppendTo(s: Slice, x: nat) returns (r: Slice)
    requires s.len <= s.data.Length
    modifies s.data
    ensures r.len == s.len + 1 <= r.data.Length && r.data[..r.len] == old(s.data[..s.len]) + [x]
    ensures r.data == s.data || fresh(r.data)
  {
    r := Slice(s.data, s.len + 1);
    if s.len == s.data.Length {
      var bigger := new nat[2 * s.len + 1];
      forall i | 0 <= i < s.len { bigger[i] := s.data[i]; }
      r := Slice(bigger, s.len + 1);
      assert bigger[..s.len] == s.data[..s.len];
    }
    r.data[s.len] := x;
    assert r.data[..r.len] == r.data[..s.len] + [x];
    assert r.data[..s.len] == old(s.data[..s.len]);
  }

  method IndexOf(s: Slice, x: nat) returns (i: nat)
    requires s.len <= s.data.Length
    ensures i <= s.len && x !in s.data[..i] && (i < s.len ==> s.data[i] == x)
  {
    i := 0;
    while i < s.len && s.data[i] != x
      invariant i <= s.len && x !in s.data[..i]
    {
      i := i + 1;
    }
  }

  /** append(s[:i], s[i+1:]...): what follows moves down inside the same array. */
  method CutAt(s: Slice, i: nat) returns (r: Slice)
    requires i < s.len <= s.data.Length
    modifies s.data
    ensures r == Slice(s.data, s.len - 1)
    ensures r.data[..r.len] == old(s.data[..i]) + old(s.data[i + 1..s.len])
  {
    var j := i;
    while j + 1 < s.len
      invariant i <= j < s.len
      invariant forall k :: 0 <= k < i || j <= k < s.len ==> s.data[k] == old(s.data[k])
      invariant forall k :: i <= k < j ==> s.data[k] == old(s.data[k + 1])
    {
      s.data[j] := s.data[j + 1];
      j := j + 1;
    }
    r := Slice(s.data, s.len - 1);
  }

  function Cut(s: seq<nat>, x: nat): seq<nat> { if x in s then Remove(s, x) else s }

  /** The cancel loop: the first x, if any, is cut out. */
  method CutFirst(s: Slice, x: nat) returns (r: Slice)
    requires s.len <= s.data.Length
    modifies s.data
    ensures r.data == s.data && r.len <= s.data.Length
    ensures r.data[..r.len] == Cut(old(s.data[..s.len]), x)
  {
    ghost var list := s.data[..s.len];
    var i := IndexOf(s, x);
    assert s.data[..i] == list[..i];
    r := s;
    if i < s.len {
      RemoveSplices(list, x, i);
      assert s.data[i + 1..s.len] == list[i + 1..];
      r := CutAt(s, i);
    } else {
      assert list[..i] == list;
    }
  }

  /** append(append(nil, s...), t...): a new array of its own. */
  method Concat(s: Slice, t: Slice) returns (copy: array<nat>)
    requires s.len <= s.data.Length && t.len <= t.data.Length
    ensures fresh(copy) && copy[..] == s.data[..s.len] + t.data[..t.len]
  {
    copy := new nat[s.len + t.len];
    forall i | 0 <= i < s.len { copy[i] := s.data[i]; }
    forall i | 0 <= i < t.len { copy[s.len + i] := t.data[i]; }
  }

  /** The subscriber lists in memory: a Go map of slices, each changed in place where Go does so. */
  class SliceTable {
    var slices: map<string, Slice>
    ghost var lists: map<string, seq<nat>>
    ghost var arrays: set<array<nat>>

    ghost predicate Holds(typ: string)
      requires typ in slices && typ in lists
      reads this, slices[typ].data
    {
      && slices[typ].len <= slices[typ].data.Length
      && lists[typ] == slices[typ].data[..slices[typ].len]
    }

    /** No two lists share a backing array. */
    ghost predicate Apart()
      reads this
    {
      && slices.Keys == lists.Keys
      && (forall t :: t in slices ==> slices[t].data in arrays)
      && forall t, u :: t in slices && u in slices && t != u ==> slices[t].data != slices[u].data
    }

    /** Every list but `typ` is right. */
    ghost predicate OthersHold(typ: string)
      reads this, arrays
    {
      Apart() && forall u :: u in slices && u != typ ==> Holds(u)
    }

    ghost predicate Valid()
      reads this, arrays
    {
      Apart() && forall typ :: typ in slices ==> Holds(typ)
    }

    constructor ()
      ensures Valid() && lists == map[] && arrays == {}
    {
      slices, lists, arrays := map[], map[], {};
    }

    method Put(typ: string, s: Slice)
      requires OthersHold(typ) && s.len <= s.data.Length
      requires s.data !in arrays || (typ in slices && s.data == slices[typ].data)
      modifies this
      ensures Valid() && arrays == old(arrays) + {s.data}
      ensures lists == old(lists)[typ := s.data[..s.len]]
    {
      slices := slices[typ := s];
      lists := lists[typ := s.data[..s.len]];
      arrays := arrays + {s.data};
      forall u | u in slices ensures Holds(u) {
        assert u != typ ==> old(Holds(u));
      }
    }

    method Append(typ: string, x: nat)
      requires Valid()
      modifies this, arrays
      ensures Valid() && fresh(arrays - old(arrays))
      ensures lists == old(lists)[typ := Lookup(old(lists), typ) + [x]]
    {
      var empty := new nat[0];
      var s := if typ in slices then slices[typ] else Slice(empty, 0);
      assert typ in slices ==> Holds(typ);
      assert Lookup(lists, typ) == s.data[..s.len];
      var r := AppendTo(s, x);
      Put(typ, r);
    }

    /** The first entry for x, if any, is taken out of the list. */
    method RemoveFirst(typ: string, x: nat)
      requires Valid() && typ in slices
      modifies this, arrays
      ensures Valid() && arrays == old(arrays)
      ensures lists == old(lists)[typ := Cut(old(lists)[typ], x)]
    {
      assert Holds(typ);
      var s := CutFirst(slices[typ], x);
      hide Remove;
      assert arrays + {s.data} == arrays;
      Put(typ, s);
    }

    /** The copy a publisher works through. */
    method Snapshot(typ: string) returns (copy: array<nat>)
      requires Valid()
      ensures fresh(copy) && copy[..] == Lookup(lists, typ) + Lookup(lists, "*")
    {
      var empty := new nat[0];
      assert typ in slices ==> Holds(typ);
      assert "*" in slices ==> Holds("*");
      var s := if typ in slices then slices[typ] else Slice(empty, 0);
      var t := if "*" in slices then slices["*"] else Slice(empty, 0);
      copy := Concat(s, t);
    }
  }

  /** The program's channel state is the system's. */
  ghost predicate Agree(queues: seq<seq<Event>>, types: seq<string>, done: seq<bool>, chans: seq<Chan>) {
    && |queues| == |types| == |done| == |chans|
    && forall c :: 0 <= c < |queues| ==>
         queues[c] == chans[c].queue && types[c] == chans[c].typ && done[c] == chans[c].until.Some?
  }

  lemma AgreeAdded(queues: seq<seq<Event>>, types: seq<string>, done: seq<bool>, b: Bus, typ: string)
    requires Agree(queues, types, done, b.chans)
    ensures Agree(queues + [[]], types + [typ], done + [false], Next(b, Subscribe(typ)).chans)
  {
  }

  lemma AgreeCancelled(queues: seq<seq<Event>>, types: seq<string>, done: seq<bool>, b: Bus, c: nat)
    requires Agree(queues, types, done, b.chans) && c < |queues|
    ensures Agree(queues, types, done[c := true], Next(b, Cancel(c)).chans)
  {
  }

  /** A send that finds room, or is dropped. */
  function Sent(queue: seq<Event>, event: Event): seq<Event> { if |queue| < CAPACITY then queue + [event] else queue }

  lemma AgreeSent(queues: seq<seq<Event>>, types: seq<string>, done: seq<bool>, b: Bus, p: nat)
    requires Agree(queues, types, done, b.chans) && Enabled(b, Send(p))
    ensures var c := b.flights[p][0];
            Agree(queues[c := Sent(queues[c], Last(b.logs[p]))], types, done, Next(b, Send(p)).chans)
  {
  }

  lemma AgreeReceived(queues: seq<seq<Event>>, types: seq<string>, done: seq<bool>, b: Bus, c: nat)
    requires Agree(queues, types, done, b.chans) && Enabled(b, Receive(c))
    ensures Agree(queues[c := queues[c][1..]], types, done, Next(b, Receive(c)).chans)
  {
  }

  /** Which queues a publication reaches, on the channels' own fields. */
  lemma ReachedMeans(b: Bus, queues: seq<seq<Event>>, types: seq<string>, done: seq<bool>, event: Event)
    requires Agree(queues, types, done, b.chans)
    ensures |types| == |done| == |queues|
    ensures forall c :: 0 <= c < |queues| ==>
              Reached(b, c, queues[c], event) ==
                if !done[c] && (types[c] == event.typ || types[c] == "*") && |queues[c]| < 64
                then queues[c] + [event] else queues[c]
  {
  }

  lemma AgreeSizes(queues: seq<seq<Event>>, types: seq<string>, done: seq<bool>, chans: seq<Chan>)
    requires Agree(queues, types, done, chans)
    ensures |queues| == |types| == |done| == |chans|
  {
  }

  /** The bus. Channels are numbered in the order they were made; `queues`, `types` and `done` are
      their buffers, the type captured by their cancel function, and whether that function has run.
      `publications` are the local variables of the publishers. Each method up to Receive is one step
      that holds the lock or is a single channel operation; `view` is the state of the system above. */
  class EventBus {
    const table: SliceTable
    var queues: seq<seq<Event>>
    var types: seq<string>
    var done: seq<bool>
    var publications: seq<Publication>
    ghost var copies: set<array<nat>>
    ghost var view: Bus

    ghost predicate SnapshotInMemory(p: nat)
      requires p < |publications| && p < |view.flights| && p < |view.logs|
      reads this, publications[p].data
    {
      && publications[p].next <= publications[p].data.Length
      && view.flights[p] == publications[p].data[publications[p].next..]
      && (view.flights[p] != [] ==> view.logs[p] != [] && Last(view.logs[p]) == publications[p].event)
    }

    ghost predicate Snapshots()
      reads this, copies
    {
      && |publications| == |view.flights| == |view.logs|
      && forall p :: 0 <= p < |publications| ==> publications[p].data in copies && SnapshotInMemory(p)
    }

    ghost predicate Valid()
      reads this, copies, table, table.arrays
    {
      && Sound(view) && Agree(queues, types, done, view.chans) && Snapshots()
      && table.Valid() && view.subs == table.lists && copies !! table.arrays
    }

    ghost function Memory(): set<object>
      reads this, table
    {
      {this, table} + table.arrays + copies
    }

    /** A change elsewhere leaves what the publishers still have to serve. */
    twostate lemma SnapshotsKept()
      requires old(Snapshots()) && publications == old(publications) && copies == old(copies)
      requires view.flights == old(view.flights) && view.logs == old(view.logs)
      requires forall a :: a in copies ==> unchanged(a)
      ensures Snapshots()
    {
      forall p | 0 <= p < |publications| ensures SnapshotInMemory(p) { assert old(SnapshotInMemory(p)); }
    }

    constructor (publishers: nat)
      ensures Valid() && fresh(Memory()) && view == Idle(publishers)
    {
      table := new SliceTable();
      queues, types, done := [], [], [];
      var none := new nat[0];
      publications := seq(publishers, _ => Publication(Event("", ""), none, 0));
      copies := {none};
      view := Idle(publishers);
      new;
      assert IsRun([view], []);
      DeliveryOnEveryRun([view], [], publishers, 0);
    }

    method Subscribe(typ: string) returns (ch: nat)
      requires Valid()
      modifies this, table, table.arrays
      ensures Valid() && fresh(Memory() - old(Memory())) && copies == old(copies) && publications == old(publications)
      ensures ch == |old(queues)| && view == Next(old(view), Step.Subscribe(typ))
    {
      ch := |queues|;
      ghost var next := Next(view, Step.Subscribe(typ));
      SoundStep(view, Step.Subscribe(typ));
      AgreeAdded(queues, types, done, view, typ);
      assert |view.chans| == ch && Enabled(view, Step.Subscribe(typ));
      assert next.(chans := []) == view.(subs := view.subs[typ := Lookup(view.subs, typ) + [ch]], chans := []);
      hide Sound, Next, Enabled, Agree, Lookup, Snapshots;
      table.Append(typ, ch);
      queues, types, done := queues + [[]], types + [typ], done + [false];
      view := next;
      SnapshotsKept();
    }

    lemma LiveIsListed(c: nat)
      requires Listed(view) && c < |view.chans| && view.chans[c].until.None?
      ensures c in Lookup(view.subs, view.chans[c].typ)
    {
      ListedAt(view, view.chans[c].typ, c);
      EntriesMeanListed(Lookup(view.subs, view.chans[c].typ), c);
    }

    /** The cancel function of channel `ch`; only its first call does anything. No snapshot changes. */
    method Cancel(ch: nat)
      requires Valid() && ch < |queues|
      modifies this, table, table.arrays
      ensures Valid() && Memory() == old(Memory()) && copies == old(copies) && publications == old(publications)
      ensures |done| == |queues| && Enabled(old(view), Step.Cancel(ch))
      ensures view == Next(old(view), Step.Cancel(ch)) && done == old(done)[ch := true]
    {
      SoundStep(view, Step.Cancel(ch));
      AgreeCancelled(queues, types, done, view, ch);
      if done[ch] {
        return;
      }
      LiveIsListed(ch);
      ghost var next := Next(view, Step.Cancel(ch));
      assert types[ch] == view.chans[ch].typ && Enabled(view, Step.Cancel(ch));
      assert next.(chans := []) ==
        view.(subs := view.subs[types[ch] := Remove(Lookup(view.subs, types[ch]), ch)], chans := []);
      hide Sound, Next, Enabled, Agree, Remove, Snapshots;
      if types[ch] in table.slices {
        table.RemoveFirst(types[ch], ch);
      }
      done := done[ch := true];
      view := next;
      SnapshotsKept();
    }

    /** Publish, under the read lock: the publisher's own copy of the two lists. */
    method Begin(p: nat, event: Event)
      requires Valid() && p < |publications| && view.flights[p] == []
      modifies this
      ensures Valid() && fresh(Memory() - old(Memory())) && |publications| == |old(publications)|
      ensures view == Next(old(view), Step.Begin(p, event))
    {
      SoundStep(view, Step.Begin(p, event));
      hide Sound;
      var data := table.Snapshot(event.typ);
      publications := publications[p := Publication(event, data, 0)];
      copies := copies + {data};
      view := Next(view, Step.Begin(p, event));
      assert Snapshots() by {
        forall q | 0 <= q < |publications| ensures SnapshotInMemory(q) { assert q != p ==> old(SnapshotInMemory(q)); }
      }
    }

    /** select { case ch <- ev: default: } */
    method TrySend(c: nat, event: Event)
      requires c < |queues|
      modifies this`queues
      ensures queues == old(queues)[c := Sent(old(queues)[c], event)]
    {
      if |queues[c]| < CAPACITY {
        queues := queues[c := queues[c] + [event]];
      }
    }

    /** One publisher has served one channel of its snapshot. */
    twostate lemma SnapshotsAdvance(p: nat)
      requires old(Snapshots()) && copies == old(copies) && p < |old(publications)| && old(view).flights[p] != []
      requires publications == old(publications)[p := old(publications)[p].(next := old(publications)[p].next + 1)]
      requires view.flights == old(view).flights[p := old(view).flights[p][1..]] && view.logs == old(view).logs
      requires forall a :: a in copies ==> unchanged(a)
      ensures Snapshots()
    {
      forall q | 0 <= q < |publications| ensures SnapshotInMemory(q) { assert old(SnapshotInMemory(q)); }
    }

    /** One turn of the sending loop: a send that never blocks. */
    method Send(p: nat)
      requires Valid() && p < |publications| && view.flights[p] != []
      modifies this
      ensures Valid() && Memory() == old(Memory()) && |publications| == |old(publications)|
      ensures Enabled(old(view), Step.Send(p)) && view == Next(old(view), Step.Send(p))
    {
      SendIsEnabled(view, p);
      SoundStep(view, Step.Send(p));
      AgreeSent(queues, types, done, view, p);
      AgreeSizes(queues, types, done, view.chans);
      ghost var next := Next(view, Step.Send(p));
      assert next.(chans := []) == view.(flights := view.flights[p := view.flights[p][1..]], chans := []);
      assert SnapshotInMemory(p);
      assert view.flights[p][0] < |queues|;
      hide Sound, Next, Enabled, Agree, Snapshots;
      var pub := publications[p];
      TrySend(pub.data[pub.next], pub.event);
      publications := publications[p := pub.(next := pub.next + 1)];
      view := next;
      SnapshotsAdvance(p);
    }

    method Receive(ch: nat) returns (event: Event)
      requires Valid() && ch < |queues| && queues[ch] != []
      modifies this
      ensures Valid() && Memory() == old(Memory()) && publications == old(publications)
      ensures Enabled(old(view), Step.Receive(ch)) && view == Next(old(view), Step.Receive(ch))
      ensures event == old(queues)[ch][0] && queues == old(queues)[ch := old(queues)[ch][1..]]
    {
      assert Enabled(view, Step.Receive(ch));
      SoundStep(view, Step.Receive(ch));
      AgreeReceived(queues, types, done, view, ch);
      ghost var next := Next(view, Step.Receive(ch));
      assert next.(chans := []) == view.(chans := []);
      hide Sound, Next, Enabled, Agree, Snapshots;
      event := queues[ch][0];
      queues := queues[ch := queues[ch][1..]];
      view := next;
      SnapshotsKept();
    }

    /** The whole sending loop, with nothing else running. */
    method SendAll(p: nat)
      requires Valid() && p < |publications|
      modifies this
      ensures Valid() && Memory() == old(Memory()) && |publications| == |old(publications)|
      ensures Sound(old(view)) && p < |old(view).flights| && view == Flush(old(view), p)
    {
      assert SnapshotInMemory(p);
      while publications[p].next < publications[p].data.Length
        invariant Valid() && Memory() == old(Memory()) && |publications| == |old(publications)|
        invariant p < |view.flights| && Flush(view, p) == Flush(old(view), p)
        decreases |view.flights[p]|
      {
        assert SnapshotInMemory(p);
        ghost var was := view;
        Send(p);
        FlushUnfolds(was, p);
      }
      assert SnapshotInMemory(p);
    }

    /** Publish with nothing else running: the snapshot is served to its end. */
    method Publish(p: nat, event: Event)
      requires Valid() && p < |publications| && view.flights[p] == []
      modifies this
      ensures Valid() && fresh(Memory() - old(Memory())) && |publications| == |old(publications)|
      ensures |queues| == |old(queues)| && |old(view).chans| == |queues|
      ensures view.flights[p] == [] && view.logs[p] == old(view).logs[p] + [event]
      ensures event.typ != "*" ==>
        forall c :: 0 <= c < |queues| ==> queues[c] == Reached(old(view), c, old(queues)[c], event)
      ensures event.typ != "*" ==>
        && |old(types)| == |old(done)| == |queues|
        && forall c :: 0 <= c < |queues| ==>
             queues[c] ==
               if !old(done)[c] && (old(types)[c] == event.typ || old(types)[c] == "*") && |old(queues)[c]| < 64
               then old(queues)[c] + [event] else old(queues)[c]
    {
      SoundStep(view, Step.Begin(p, event));
      ghost var b := view;
      ReachedMeans(b, queues, types, done, event);
      hide Sound, Flush;
      Begin(p, event);
      ghost var begun := view;
      SendAll(p);
      FlushServes(begun, p);
      hide Live;
      if event.typ != "*" {
        forall c | 0 <= c < |b.chans|
          ensures view.chans[c] ==
            if Live(b, event.typ, c) || Live(b, "*", c) then Offered(b.chans[c], p, event) else b.chans[c]
        {
          PublishOffersOnce(b, p, event, c);
        }
      }
    }
  }
}
