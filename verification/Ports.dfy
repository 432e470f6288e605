/** The port watch of a guest: one scanner finds the listening ports and tells every watch
    what opened and closed since the last scan. Watches register, read and leave at any
    moment; the table of watches is changed under a lock that the scanner gives up while it
    reads the system's tables. */
module Ports {

  import opened Common

  const MAX_WATCHES := 64
  const WATCH_BACKLOG := 1024

  type Id = nat
  /** Address and port number. */
  type Key = (string, nat)
  /** A listening socket and the process that owns it. */
  datatype Port = Port(key: Key, pid: nat)
  /** What one scan found: the owner of each listening socket. */
  type Scan = map<Key, nat>

  datatype Event = PortList(ports: seq<Port>) | PortOpened(port: Port) | PortClosed(port: Port)

  datatype Watch = Watch(id: Id, listed: bool)

  /** A bounded queue with all that was ever put into it; `taken` events have been received.
      `open` until the receiving end is dropped. */
  datatype Channel = Channel(sent: seq<Event>, taken: nat, open: bool)

  type Channels = map<Id, Channel>
  /** How many events each receiver takes before each event offered to it. */
  type Paces = seq<seq<nat>>

  datatype State = State(
    watches: seq<Watch>,
    channels: Channels,
    attached: nat,
    pending: bool,
    nextId: Id,
    known: Option<Scan>,
    scanning: bool)
  {
    predicate Any() { watches != [] || attached > 0 }
  }

  const Init := State([], map[], 0, false, 0, None, false)

  // ---------------------------------------------------------------------
  // What a scan has to tell
  // ---------------------------------------------------------------------

  predicate Found(p: Port, scan: Scan)
  {
    p.key in scan && p.pid == scan[p.key]
  }

  /** The ports of `keys` as the scan found them, each once and in some order. */
  ghost predicate Enumerates(ports: seq<Port>, scan: Scan, keys: set<Key>)
  {
    && (forall i :: 0 <= i < |ports| ==> ports[i].key in keys && Found(ports[i], scan))
    && (forall k :: k in keys ==> exists i :: 0 <= i < |ports| && ports[i].key == k)
    && (forall i, j :: 0 <= i < j < |ports| ==> ports[i].key != ports[j].key)
  }

  function KeysOf(ports: seq<Port>): (r: set<Key>)
  {
    set p | p in ports :: p.key
  }

  /** The news of a scan after `known`; after a quiet spell everything is. */
  datatype News = News(list: seq<Port>, came: seq<Port>, went: seq<Port>)

  ghost predicate IsNews(news: News, known: Option<Scan>, current: Scan)
  {
    && Enumerates(news.list, current, current.Keys)
    && var before: Scan := if known.Some? then known.value else map[];
       && Enumerates(news.came, current, current.Keys - before.Keys)
       && Enumerates(news.went, before, before.Keys - current.Keys)
  }

  function Opens(ports: seq<Port>): (r: seq<Event>)
  {
    seq(|ports|, i requires 0 <= i < |ports| => PortOpened(ports[i]))
  }

  function Closes(ports: seq<Port>): (r: seq<Event>)
  {
    seq(|ports|, i requires 0 <= i < |ports| => PortClosed(ports[i]))
  }

  /** What a watch is due: the list when it is new, otherwise every change. */
  function Due(listed: bool, news: News): (r: seq<Event>)
  {
    if listed then Opens(news.came) + Closes(news.went) else [PortList(news.list)]
  }

  // ---------------------------------------------------------------------
  // Delivery
  // ---------------------------------------------------------------------

  /** The receiver takes up to `n` events, at any moment. */
  function Received(c: Channel, n: nat): (r: Channel)
  {
    if c.taken <= |c.sent| then c.(taken := Min(c.taken + n, |c.sent|)) else c
  }

  predicate Accepts(c: Channel)
  {
    c.open && |c.sent| - c.taken < WATCH_BACKLOG
  }

  function PaceOf(pace: seq<nat>): nat { if pace == [] then 0 else pace[0] }

  function Rest(pace: seq<nat>): seq<nat> { if pace == [] then [] else pace[1..] }

  /** Sends `events` until one is not accepted. The receiver may take `pace[i]` events just
      before the `i`th is offered. */
  function Offered(c: Channel, events: seq<Event>, pace: seq<nat>): (r: (Channel, bool))
    decreases |events|
  {
    if events == [] then (c, true)
    else
      var d := Received(c, PaceOf(pace));
      if Accepts(d) then Offered(d.(sent := d.sent + [events[0]]), events[1..], Rest(pace)) else (d, false)
  }

  ghost predicate HasChannels(watches: seq<Watch>, channels: Channels)
  {
    forall w :: w in watches ==> w.id in channels
  }

  function PaceFor(paces: Paces, i: nat): seq<nat> { if i < |paces| then paces[i] else [] }

  /** Tells the first `n` watches in turn and keeps those that took everything. */
  function Told(watches: seq<Watch>, channels: Channels, news: News, paces: Paces, n: nat)
    : (r: (seq<Watch>, Channels))
    requires HasChannels(watches, channels) && n <= |watches|
    ensures r.1.Keys == channels.Keys
  {
    if n == 0 then ([], channels)
    else
      var told := Told(watches, channels, news, paces, n - 1);
      var w := watches[n - 1];
      var offered := Offered(told.1[w.id], Due(w.listed, news), PaceFor(paces, n - 1));
      (told.0 + (if offered.1 then [Watch(w.id, true)] else []), told.1[w.id := offered.0])
  }

  // ---------------------------------------------------------------------
  // Steps
  // ---------------------------------------------------------------------

  datatype Step =
    | Register
    | Unregister(id: Id)
    | DropReceiver(id: Id)
    | Receive(id: Id, n: nat)
    | Attach(count: nat)
    | Idle
    | BeginScan(due: bool)
    | EndScan(current: Scan, news: News, paces: Paces)

  function Without(watches: seq<Watch>, id: Id): (r: seq<Watch>)
  {
    if watches == [] then []
    else
      var last := |watches| - 1;
      Without(watches[..last], id) + (if watches[last].id == id then [] else [watches[last]])
  }

  predicate Watching(watches: seq<Watch>, id: Id)
  {
    exists i :: 0 <= i < |watches| && watches[i].id == id
  }

  /** Dropping a registration takes its watch out before its receiving end goes. A scan may
      begin for a new watch, after a quiet spell or when the next one is due. */
  ghost predicate Next(s: State, step: Step, t: State)
  {
    match step
    case Register =>
      if |s.watches| >= MAX_WATCHES then t == s
      else t == s.(watches := s.watches + [Watch(s.nextId, false)], pending := true, nextId := s.nextId + 1,
                   channels := s.channels[s.nextId := Channel([], 0, true)])
    case Unregister(id) =>
      t == s.(watches := Without(s.watches, id))
    case DropReceiver(id) =>
      && id in s.channels && !Watching(s.watches, id)
      && t == s.(channels := s.channels[id := s.channels[id].(open := false)])
    case Receive(id, n) =>
      && id in s.channels && s.channels[id].open
      && t == s.(channels := s.channels[id := Received(s.channels[id], n)])
    case Attach(count) =>
      t == s.(attached := count)
    case Idle =>
      && !s.scanning && !s.Any()
      && t == s.(known := None)
    case BeginScan(due) =>
      && !s.scanning && s.Any() && (s.known.None? || s.pending || due)
      && t == s.(pending := false, scanning := true)
    case EndScan(current, news, paces) =>
      && s.scanning && IsNews(news, s.known, current) && HasChannels(s.watches, s.channels)
      && var told := Told(s.watches, s.channels, news, paces, |s.watches|);
         t == s.(watches := told.0, channels := told.1, known := Some(current), scanning := false)
  }

  // ---------------------------------------------------------------------
  // The scanner
  // ---------------------------------------------------------------------

  class Scanner {
    var watches: seq<Watch>
    var channels: Channels
    var attached: nat
    var pending: bool
    var nextId: Id
    var known: Option<Scan>
    var scanning: bool

    ghost function View(): (s: State)
      reads this
    {
      State(watches, channels, attached, pending, nextId, known, scanning)
    }

    constructor ()
      ensures View() == Init
    {
      watches, channels, attached, pending, nextId, known, scanning := [], map[], 0, false, 0, None, false;
    }

    method Register() returns (id: Option<Id>)
      modifies this
      ensures Next(old(View()), Step.Register, View())
      ensures id == if |old(watches)| >= MAX_WATCHES then None else Some(old(nextId))
    {
      if |watches| >= MAX_WATCHES {
        return None;
      }
      channels := channels[nextId := Channel([], 0, true)];
      id := Some(nextId);
      watches := watches + [Watch(nextId, false)];
      nextId := nextId + 1;
      pending := true;
    }

    /** Drops a registration: the watch leaves the table, then the receiving end goes. */
    method Drop(id: Id)
      requires id in channels
      modifies this
      ensures exists mid :: Next(old(View()), Unregister(id), mid) && Next(mid, DropReceiver(id), View())
    {
      var left: seq<Watch> := [];
      for i := 0 to |watches|
        invariant unchanged(this)
        invariant left == Without(watches[..i], id) && !Watching(left, id)
      {
        assert watches[..i + 1][..i] == watches[..i];
        if watches[i].id != id {
          left := left + [watches[i]];
        }
      }
      assert watches[..|watches|] == watches;
      watches := left;
      ghost var mid := View();
      channels := channels[id := channels[id].(open := false)];
      assert Next(mid, DropReceiver(id), View());
    }

    method Receive(id: Id) returns (event: Option<Event>)
      requires id in channels && channels[id].open
      modifies this
      ensures Next(old(View()), Step.Receive(id, 1), View())
      ensures var c := old(channels[id]);
              event == if c.taken < |c.sent| then Some(c.sent[c.taken]) else None
    {
      var c := channels[id];
      if c.taken < |c.sent| {
        event := Some(c.sent[c.taken]);
        c := c.(taken := c.taken + 1);
      } else {
        event := None;
      }
      channels := channels[id := c];
    }

    /** What the scanner does with the lock held before it scans: false when it waits. */
    method Begin(due: bool) returns (scan: bool)
      requires !scanning
      modifies this
      ensures if scan then Next(old(View()), BeginScan(due), View())
              else if old(View()).Any() then View() == old(View())
              else Next(old(View()), Idle, View())
      ensures scan <==> old(View()).Any() && (old(known).None? || old(pending) || due)
    {
      if watches == [] && attached == 0 {
        known := None;
        return false;
      }
      if known.Some? && !pending && !due {
        return false;
      }
      pending := false;
      scanning := true;
      return true;
    }

    method End(current: Scan, paces: Paces) returns (ghost news: News)
      requires scanning && HasChannels(watches, channels)
      modifies this
      ensures Next(old(View()), EndScan(current, news, paces), View())
    {
      var before: Scan := if known.Some? then known.value else map[];
      var came := Enumerate(current, current.Keys - before.Keys);
      var went := Enumerate(before, before.Keys - current.Keys);
      var list := Enumerate(current, current.Keys);
      var n := News(list, came, went);
      news := n;
      TellAll(n, paces);
      known := Some(current);
      scanning := false;
    }

    method TellAll(news: News, paces: Paces)
      requires HasChannels(watches, channels)
      modifies `watches, `channels
      ensures (watches, channels) == Told(old(watches), old(channels), news, paces, |old(watches)|)
    {
      hide Offered, Due;
      var kept: seq<Watch> := [];
      for i := 0 to |watches|
        invariant watches == old(watches)
        invariant (kept, channels) == Told(watches, old(channels), news, paces, i)
      {
        var w := watches[i];
        var c, took := Offer(channels[w.id], Due(w.listed, news), PaceFor(paces, i));
        channels := channels[w.id := c];
        kept := kept + (if took then [Watch(w.id, true)] else []);
      }
      watches := kept;
    }
  }

  /** Sends events one by one until the channel refuses one. */
  method Offer(c: Channel, events: seq<Event>, pace: seq<nat>) returns (d: Channel, took: bool)
    ensures (d, took) == Offered(c, events, pace)
  {
    d := c;
    var left := pace;
    for i := 0 to |events|
      invariant Offered(c, events, pace) == Offered(d, events[i..], left)
    {
      d := Received(d, PaceOf(left));
      if !Accepts(d) {
        return d, false;
      }
      d := d.(sent := d.sent + [events[i]]);
      left := Rest(left);
    }
    took := true;
  }

  method Enumerate(scan: Scan, keys: set<Key>) returns (ports: seq<Port>)
    requires keys <= scan.Keys
    ensures Enumerates(ports, scan, keys)
  {
    ports := [];
    var done, rest := {}, keys;
    while rest != {}
      invariant done + rest == keys && done !! rest && Enumerates(ports, scan, done)
    {
      var k :| k in rest;
      EnumeratesOneMore(ports, scan, done, k);
      ports, done, rest := ports + [Port(k, scan[k])], done + {k}, rest - {k};
    }
  }

  lemma EnumeratesOneMore(ports: seq<Port>, scan: Scan, keys: set<Key>, k: Key)
    requires Enumerates(ports, scan, keys) && k in scan && k !in keys
    ensures Enumerates(ports + [Port(k, scan[k])], scan, keys + {k})
  {
    var more := ports + [Port(k, scan[k])];
    forall key | key in keys + {k} ensures exists i :: 0 <= i < |more| && more[i].key == key {
      if key == k {
        assert more[|ports|].key == k;
      } else {
        var i :| 0 <= i < |ports| && ports[i].key == key;
        assert more[i].key == key;
      }
    }
  }

  // ---------------------------------------------------------------------
  // What a client makes of the events
  // ---------------------------------------------------------------------

  /** What a client shows after an event. */
  function Shown(keys: set<Key>, e: Event): (r: set<Key>)
  {
    match e
    case PortList(ports) => KeysOf(ports)
    case PortOpened(port) => keys + {port.key}
    case PortClosed(port) => keys - {port.key}
  }

  function Replay(events: seq<Event>): (r: set<Key>)
  {
    if events == [] then {} else Shown(Replay(events[..|events| - 1]), events[|events| - 1])
  }

  /** The list comes first and once; a port that opens was not shown, one that closes was. */
  predicate Fits(before: seq<Event>, e: Event)
  {
    match e
    case PortList(_) => before == []
    case PortOpened(port) => before != [] && port.key !in Replay(before)
    case PortClosed(port) => before != [] && port.key in Replay(before)
  }

  ghost predicate Follows(events: seq<Event>)
  {
    forall i :: 0 <= i < |events| ==> Fits(events[..i], events[i])
  }

  lemma OneMore(events: seq<Event>, e: Event)
    requires Follows(events) && Fits(events, e)
    ensures Follows(events + [e])
    ensures Replay(events + [e]) == Shown(Replay(events), e)
  {
    var more := events + [e];
    assert more[..|events|] == events;
    forall i | 0 <= i < |more| ensures Fits(more[..i], more[i]) {
      if i < |events| {
        assert more[..i] == events[..i];
      }
    }
  }

  lemma OneChange(events: seq<Event>, e: Event)
    requires events != [] && Follows(events) && Changes(Replay(events), e)
    ensures Follows(events + [e])
    ensures Replay(events + [e]) == Shown(Replay(events), e)
  {
    hide Follows, Replay;
    OneMore(events, e);
  }

  lemma KeysOfEnumeration(ports: seq<Port>, scan: Scan, keys: set<Key>)
    requires Enumerates(ports, scan, keys)
    ensures KeysOf(ports) == keys
  {
    forall k | k in keys ensures k in KeysOf(ports) {
      var i :| 0 <= i < |ports| && ports[i].key == k;
      assert ports[i] in ports;
    }
  }

  lemma KeysOfOneMore(ports: seq<Port>, n: nat)
    requires n < |ports|
    ensures KeysOf(ports[..n + 1]) == KeysOf(ports[..n]) + {ports[n].key}
  {
    assert ports[..n + 1] == ports[..n] + [ports[n]];
    assert ports[n] in ports[..n + 1];
  }

  /** What is shown once `n` of the changes have come. */
  function Partway(known: Scan, news: News, n: nat): (r: set<Key>)
    requires n <= |news.came| + |news.went|
  {
    if n <= |news.came| then known.Keys + KeysOf(news.came[..n])
    else known.Keys + KeysOf(news.came) - KeysOf(news.went[..n - |news.came|])
  }

  /** A change to what is shown. */
  predicate Changes(shown: set<Key>, e: Event)
  {
    match e
    case PortList(_) => false
    case PortOpened(port) => port.key !in shown
    case PortClosed(port) => port.key in shown
  }

  /** However many of the changes have come, they fit what the client shows. */
  lemma {:induction false} ChangesFit(sent: seq<Event>, known: Scan, current: Scan, news: News, n: nat)
    requires sent != [] && Follows(sent) && Replay(sent) == known.Keys
    requires IsNews(news, Some(known), current) && n <= |Due(true, news)|
    ensures Follows(sent + Due(true, news)[..n])
    ensures Replay(sent + Due(true, news)[..n]) == Partway(known, news, n)
  {
    hide *;
    var due := Due(true, news);
    if n == 0 {
      assert sent + due[..0] == sent;
      NoneYet(known, news);
    } else {
      ChangesFit(sent, known, current, news, n - 1);
      ChangeFits(known, current, news, n - 1);
      var before := sent + due[..n - 1];
      assert sent + due[..n] == before + [due[n - 1]];
      OneChange(before, due[n - 1]);
    }
  }

  lemma NoneYet(known: Scan, news: News)
    ensures Partway(known, news, 0) == known.Keys
  {
    assert KeysOf(news.came[..0]) == {};
  }

  lemma ChangeFits(known: Scan, current: Scan, news: News, n: nat)
    requires IsNews(news, Some(known), current) && n < |Due(true, news)|
    ensures var e := Due(true, news)[n];
            && Partway(known, news, n + 1) == Shown(Partway(known, news, n), e)
            && Changes(Partway(known, news, n), e)
  {
    var came, went := news.came, news.went;
    if n < |came| {
      KeysOfOneMore(came, n);
    } else {
      assert came[..|came|] == came;
      KeysOfEnumeration(came, current, current.Keys - known.Keys);
      var m := n - |came|;
      KeysOfOneMore(went, m);
      assert KeysOf(went[..0]) == {};
      assert went[m].key !in KeysOf(went[..m]);
    }
  }

  /** All the changes together lead from the last scan to this one. */
  lemma ChangesLead(sent: seq<Event>, known: Scan, current: Scan, news: News)
    requires sent != [] && Follows(sent) && Replay(sent) == known.Keys
    requires IsNews(news, Some(known), current)
    ensures Replay(sent + Due(true, news)) == current.Keys
  {
    hide Follows, Fits, Replay;
    var due := Due(true, news);
    assert due[..|due|] == due;
    ChangesFit(sent, known, current, news, |due|);
    assert news.came[..|news.came|] == news.came;
    assert news.went[..|news.went|] == news.went;
    KeysOfEnumeration(news.came, current, current.Keys - known.Keys);
    KeysOfEnumeration(news.went, known, known.Keys - current.Keys);
    assert news.went == [] ==> KeysOf(news.went) == {};
    assert known.Keys + (current.Keys - known.Keys) - (known.Keys - current.Keys) == current.Keys;
  }

  // ---------------------------------------------------------------------
  // Owners
  // ---------------------------------------------------------------------

  /** What a listed watch is told of a scan: each port that was not there before, with the owner
      the scan found, and each that is gone, with the owner it had in the scan before. A new watch
      is told every port with its owner. */
  lemma NewsIsTold(known: Scan, current: Scan, news: News, p: Port)
    requires IsNews(news, Some(known), current)
    ensures PortOpened(p) in Due(true, news) <==> Found(p, current) && p.key !in known
    ensures PortClosed(p) in Due(true, news) <==> Found(p, known) && p.key !in current
    ensures |Due(true, news)| == |current.Keys - known.Keys| + |known.Keys - current.Keys|
    ensures Due(false, news) == [PortList(news.list)] && |news.list| == |current|
    ensures p in news.list <==> Found(p, current)
  {
    EnumeratedAre(news.came, current, current.Keys - known.Keys, p);
    EnumeratedAre(news.went, known, known.Keys - current.Keys, p);
    EnumeratedAre(news.list, current, current.Keys, p);
    OpenedOrClosed(news, p);
    assert |current| == |current.Keys|;
  }

  lemma OpenedOrClosed(news: News, p: Port)
    ensures PortOpened(p) in Due(true, news) <==> p in news.came
    ensures PortClosed(p) in Due(true, news) <==> p in news.went
  {
    var came := Opens(news.came);
    if p in news.came {
      var i :| 0 <= i < |news.came| && news.came[i] == p;
      assert Due(true, news)[i] == PortOpened(p);
    }
    if p in news.went {
      var i :| 0 <= i < |news.went| && news.went[i] == p;
      assert Due(true, news)[|came| + i] == PortClosed(p);
    }
  }

  /** An enumeration holds exactly what was found, each once. */
  lemma EnumeratedAre(ports: seq<Port>, scan: Scan, keys: set<Key>, p: Port)
    requires Enumerates(ports, scan, keys) && keys <= scan.Keys
    ensures p in ports <==> p.key in keys && Found(p, scan)
    ensures |ports| == |keys|
  {
    if p.key in keys && Found(p, scan) {
      var i :| 0 <= i < |ports| && ports[i].key == p.key;
      assert ports[i] == p;
    }
    CountOfKeys(ports);
    KeysOfEnumeration(ports, scan, keys);
  }

  lemma {:induction false} CountOfKeys(ports: seq<Port>)
    requires forall i, j :: 0 <= i < j < |ports| ==> ports[i].key != ports[j].key
    ensures |KeysOf(ports)| == |ports|
  {
    if ports != [] {
      var n := |ports| - 1;
      CountOfKeys(ports[..n]);
      KeysOfOneMore(ports, n);
      assert ports[..n + 1] == ports;
      assert ports[n].key !in KeysOf(ports[..n]);
    }
  }

  /** The owner a client shows for a port, by the last event that named it. */
  function OwnerAfter(owner: Option<nat>, key: Key, e: Event): (r: Option<nat>)
  {
    match e
    case PortList(ports) => OwnerIn(ports, key)
    case PortOpened(port) => if port.key == key then Some(port.pid) else owner
    case PortClosed(port) => if port.key == key then None else owner
  }

  function OwnerIn(ports: seq<Port>, key: Key): (r: Option<nat>)
  {
    if ports == [] then None else
      var last := ports[|ports| - 1];
      if last.key == key then Some(last.pid) else OwnerIn(ports[..|ports| - 1], key)
  }

  function OwnerShown(events: seq<Event>, key: Key): (r: Option<nat>)
  {
    if events == [] then None
    else OwnerAfter(OwnerShown(events[..|events| - 1], key), key, events[|events| - 1])
  }

  lemma {:induction false} OwnerInIs(ports: seq<Port>, key: Key)
    ensures match OwnerIn(ports, key)
            case Some(pid) => Port(key, pid) in ports
            case None => key !in KeysOf(ports)
  {
    if ports != [] {
      var n := |ports| - 1;
      OwnerInIs(ports[..n], key);
      KeysOfOneMore(ports, n);
      assert ports[..n + 1] == ports;
      assert ports[n] in ports;
    }
  }

  ghost predicate Unnamed(events: seq<Event>, key: Key)
  {
    forall i :: 0 <= i < |events| ==> !events[i].PortList? && events[i].port.key != key
  }

  /** Events that do not name a port leave its owner. */
  lemma {:induction false} OwnerStays(events: seq<Event>, more: seq<Event>, key: Key)
    requires Unnamed(more, key)
    ensures OwnerShown(events + more, key) == OwnerShown(events, key)
  {
    if more == [] {
      assert events + more == events;
    } else {
      var n := |more| - 1;
      OwnerStays(events, more[..n], key);
      assert (events + more)[..|events + more| - 1] == events + more[..n];
    }
  }

  /** Of those that do the last one counts. */
  lemma OwnerByTheLast(events: seq<Event>, more: seq<Event>, i: nat, key: Key)
    requires i < |more| && !more[i].PortList? && more[i].port.key == key && Unnamed(more[i + 1..], key)
    ensures OwnerShown(events + more, key) == if more[i].PortOpened? then Some(more[i].port.pid) else None
  {
    var upTo := events + more[..i] + [more[i]];
    OwnerStays(upTo, more[i + 1..], key);
    assert events + more == upTo + more[i + 1..];
    assert upTo[..|upTo| - 1] == events + more[..i];
  }

  /** After a scan, a watch that took all its news shows the owner the scan found for every port
      new to it, and goes on showing the owner it showed for a port that was there before. */
  lemma OwnersAfterScan(sent: seq<Event>, listed: bool, known: Option<Scan>, current: Scan, news: News, key: Key)
    requires IsNews(news, known, current) && UpToDate(sent, listed, known)
    ensures OwnerShown(sent + Due(listed, news), key) ==
            if key !in current then None
            else if listed && key in known.value then OwnerShown(sent, key)
            else Some(current[key])
  {
    if listed {
      OwnersAfterChanges(sent, known.value, current, news, key);
    } else {
      var e := PortList(news.list);
      assert sent + Due(listed, news) == [e] && [e][..0] == [];
      OwnerInIs(news.list, key);
      KeysOfEnumeration(news.list, current, current.Keys);
    }
  }

  lemma OwnersAfterChanges(sent: seq<Event>, known: Scan, current: Scan, news: News, key: Key)
    requires IsNews(news, Some(known), current) && Replay(sent) == known.Keys
    ensures OwnerShown(sent + Due(true, news), key) ==
            if key !in current then None else if key in known then OwnerShown(sent, key) else Some(current[key])
  {
    hide OwnerShown, Replay, Enumerates, Unnamed, Due;
    var due, c := Due(true, news), |news.came|;
    DueAt(news);
    if key in current && key !in known {
      var i := PlaceOf(news.came, current, current.Keys - known.Keys, key);
      LaterAreOthers(known, current, news, i);
      OwnerByTheLast(sent, due, i, key);
    } else if key in known && key !in current {
      var i := PlaceOf(news.went, known, known.Keys - current.Keys, key);
      LaterAreOthers(known, current, news, c + i);
      OwnerByTheLast(sent, due, c + i, key);
    } else {
      NotInTheNews(known, current, news, key);
      OwnerStays(sent, due, key);
      ShownHasOwner(sent, key);
    }
  }

  lemma PlaceOf(ports: seq<Port>, scan: Scan, keys: set<Key>, key: Key) returns (i: nat)
    requires Enumerates(ports, scan, keys) && key in keys
    ensures i < |ports| && key in scan && ports[i] == Port(key, scan[key])
  {
    i :| 0 <= i < |ports| && ports[i].key == key;
  }

  lemma NotInTheNews(known: Scan, current: Scan, news: News, key: Key)
    requires IsNews(news, Some(known), current) && (key in known <==> key in current)
    ensures Unnamed(Due(true, news), key)
  {
    DueAt(news);
  }

  lemma DueAt(news: News)
    ensures |Due(true, news)| == |news.came| + |news.went|
    ensures forall i :: 0 <= i < |news.came| ==> Due(true, news)[i] == PortOpened(news.came[i])
    ensures forall i :: |news.came| <= i < |Due(true, news)| ==>
              Due(true, news)[i] == PortClosed(news.went[i - |news.came|])
  {
  }

  /** No two changes name one port. */
  lemma LaterAreOthers(known: Scan, current: Scan, news: News, i: nat)
    requires IsNews(news, Some(known), current) && i < |Due(true, news)| && !Due(true, news)[i].PortList?
    ensures Unnamed(Due(true, news)[i + 1..], Due(true, news)[i].port.key)
  {
    var due := Due(true, news);
    DueAt(news);
    var later := due[i + 1..];
    forall j | 0 <= j < |later| ensures !later[j].PortList? && later[j].port.key != due[i].port.key {
      assert later[j] == due[i + 1 + j];
    }
  }

  /** An owner is shown exactly for what is shown. */
  lemma {:induction false} ShownHasOwner(events: seq<Event>, key: Key)
    ensures OwnerShown(events, key).Some? <==> key in Replay(events)
  {
    if events != [] {
      var n := |events| - 1;
      ShownHasOwner(events[..n], key);
      if events[n].PortList? {
        OwnerInIs(events[n].ports, key);
        assert forall p :: p in events[n].ports ==> p.key in KeysOf(events[n].ports);
      }
    }
  }

  // ---------------------------------------------------------------------
  // Delivery to one watch and to all
  // ---------------------------------------------------------------------

  predicate Queued(c: Channel)
  {
    c.taken <= |c.sent| <= c.taken + WATCH_BACKLOG
  }

  /** The channel takes a prefix of the events, and stops short only when it is full. */
  lemma {:induction false} OfferedIsPrefix(c: Channel, events: seq<Event>, pace: seq<nat>) returns (n: nat)
    requires c.open && Queued(c)
    ensures n <= |events|
    ensures var (d, took) := Offered(c, events, pace);
            && d.open && Queued(d) && d.sent == c.sent + events[..n]
            && (took <==> n == |events|)
            && (took || |d.sent| == d.taken + WATCH_BACKLOG)
    decreases |events|
  {
    if events == [] {
      n := 0;
    } else {
      var d := Received(c, PaceOf(pace));
      if Accepts(d) {
        var e := d.(sent := d.sent + [events[0]]);
        var m := OfferedIsPrefix(e, events[1..], Rest(pace));
        n := m + 1;
        assert events[..n] == [events[0]] + events[1..][..m];
      } else {
        n := 0;
      }
    }
  }

  ghost predicate Distinct(watches: seq<Watch>)
  {
    forall i, j :: 0 <= i < j < |watches| ==> watches[i].id != watches[j].id
  }

  /** How a watch fares in a scan. */
  function Fate(watches: seq<Watch>, channels: Channels, news: News, paces: Paces, i: nat)
    : (r: (Channel, bool))
    requires HasChannels(watches, channels) && i < |watches|
  {
    Offered(channels[watches[i].id], Due(watches[i].listed, news), PaceFor(paces, i))
  }

  lemma {:induction false} ToldOther(watches: seq<Watch>, channels: Channels, news: News, paces: Paces, n: nat, id: Id)
    requires HasChannels(watches, channels) && n <= |watches| && id in channels
    requires forall j :: 0 <= j < n ==> watches[j].id != id
    ensures Told(watches, channels, news, paces, n).1[id] == channels[id]
  {
    hide Offered, Due;
    if n > 0 {
      ToldOther(watches, channels, news, paces, n - 1, id);
    }
  }

  lemma {:induction false} ToldOne(watches: seq<Watch>, channels: Channels, news: News, paces: Paces, n: nat, i: nat)
    requires HasChannels(watches, channels) && i < n <= |watches| && Distinct(watches)
    ensures Told(watches, channels, news, paces, n).1[watches[i].id] == Fate(watches, channels, news, paces, i).0
    ensures Watch(watches[i].id, true) in Told(watches, channels, news, paces, n).0
            <== Fate(watches, channels, news, paces, i).1
  {
    hide Offered, Due;
    if i == n - 1 {
      ToldOther(watches, channels, news, paces, i, watches[i].id);
    } else {
      ToldOne(watches, channels, news, paces, n - 1, i);
      assert watches[i].id != watches[n - 1].id;
    }
  }

  /** A watch that is kept is one of those told, and took everything. */
  lemma {:induction false} KeptOne(watches: seq<Watch>, channels: Channels, news: News, paces: Paces, n: nat, k: nat)
    returns (i: nat)
    requires HasChannels(watches, channels) && n <= |watches| && Distinct(watches)
    requires k < |Told(watches, channels, news, paces, n).0|
    ensures k <= i < n && Told(watches, channels, news, paces, n).0[k] == Watch(watches[i].id, true)
    ensures Fate(watches, channels, news, paces, i).1
    ensures |Told(watches, channels, news, paces, n).0| <= n
  {
    hide Offered, Due;
    var before := Told(watches, channels, news, paces, n - 1).0;
    if k < |before| {
      i := KeptOne(watches, channels, news, paces, n - 1, k);
    } else {
      i := n - 1;
      ToldOther(watches, channels, news, paces, i, watches[i].id);
      if |before| > 0 {
        var _ := KeptOne(watches, channels, news, paces, n - 1, 0);
      }
    }
  }

  lemma {:induction false} KeptDistinct(watches: seq<Watch>, channels: Channels, news: News, paces: Paces, n: nat)
    requires HasChannels(watches, channels) && n <= |watches| && Distinct(watches)
    ensures Distinct(Told(watches, channels, news, paces, n).0)
  {
    hide Offered, Due;
    if n > 0 {
      KeptDistinct(watches, channels, news, paces, n - 1);
      var before := Told(watches, channels, news, paces, n - 1).0;
      forall k | 0 <= k < |before| ensures before[k].id != watches[n - 1].id {
        var i := KeptOne(watches, channels, news, paces, n - 1, k);
      }
    }
  }

  // ---------------------------------------------------------------------
  // What every step keeps
  // ---------------------------------------------------------------------

  /** The table names each channel once, and every watch in it still has its receiver. */
  ghost predicate Table(s: State)
  {
    && Distinct(s.watches) && |s.watches| <= MAX_WATCHES
    && (forall w :: w in s.watches ==> w.id in s.channels && s.channels[w.id].open)
    && (forall id :: id in s.channels ==> id < s.nextId)
  }

  ghost predicate Streams(s: State)
  {
    forall id :: id in s.channels ==> Queued(s.channels[id]) && Follows(s.channels[id].sent)
  }

  /** A listed watch has been told the last scan, a new one nothing. */
  ghost predicate UpToDate(sent: seq<Event>, listed: bool, known: Option<Scan>)
  {
    if listed then sent != [] && known.Some? && Replay(sent) == known.value.Keys else sent == []
  }

  ghost predicate Informed(s: State)
  {
    forall w :: w in s.watches ==> w.id in s.channels && UpToDate(s.channels[w.id].sent, w.listed, s.known)
  }

  /** The scanner does not go to sleep on a watch that waits for its list. */
  ghost predicate Awake(s: State)
  {
    (exists w :: w in s.watches && !w.listed) ==> s.pending || s.scanning
  }

  ghost predicate Inv(s: State)
  {
    Table(s) && Streams(s) && Informed(s) && Awake(s)
  }

  lemma {:induction false} WithoutKeeps(watches: seq<Watch>, id: Id)
    ensures |Without(watches, id)| <= |watches|
    ensures forall w :: w in Without(watches, id) <==> w in watches && w.id != id
    ensures Distinct(watches) ==> Distinct(Without(watches, id))
  {
    if watches != [] {
      WithoutKeeps(watches[..|watches| - 1], id);
    }
  }

  lemma NothingFollows()
    ensures Follows([])
  {
  }

  lemma ChannelStepKeeps(s: State, step: Step, t: State)
    requires Inv(s) && Next(s, step, t) && (step.Register? || step.DropReceiver? || step.Receive?)
    ensures Inv(t)
  {
    hide Follows, Replay;
    NothingFollows();
  }

  lemma TableStepKeeps(s: State, step: Step, t: State)
    requires Inv(s) && Next(s, step, t)
    requires !step.Register? && !step.DropReceiver? && !step.Receive? && !step.EndScan?
    ensures Inv(t)
  {
    hide Follows, Replay, Queued, Without;
    if step.Unregister? {
      WithoutKeeps(s.watches, step.id);
    }
  }

  lemma ListFits(news: News, known: Option<Scan>, current: Scan)
    requires IsNews(news, known, current)
    ensures Follows(Due(false, news)) && Replay(Due(false, news)) == current.Keys
  {
    NothingFollows();
    OneMore([], PortList(news.list));
    assert [] + [PortList(news.list)] == Due(false, news);
    KeysOfEnumeration(news.list, current, current.Keys);
  }

  /** Whatever a watch takes of its news fits what it was told before, and a watch that takes
      it all is told this scan. */
  lemma TellingOne(c: Channel, listed: bool, known: Option<Scan>, current: Scan, news: News, pace: seq<nat>)
    requires c.open && Queued(c) && Follows(c.sent) && UpToDate(c.sent, listed, known)
    requires IsNews(news, known, current)
    ensures var (d, took) := Offered(c, Due(listed, news), pace);
            && d.open && Queued(d) && Follows(d.sent) && c.sent <= d.sent
            && (took <==> d.sent == c.sent + Due(listed, news))
            && (took ==> UpToDate(d.sent, true, Some(current)))
  {
    hide Follows, Replay, IsNews, Offered, Queued;
    var due := Due(listed, news);
    var n := OfferedIsPrefix(c, due, pace);
    var d := Offered(c, due, pace).0;
    assert due[..|due|] == due;
    assert n < |due| ==> |d.sent| != |c.sent + due|;
    if listed {
      ChangesFit(c.sent, known.value, current, news, n);
      ChangesLead(c.sent, known.value, current, news);
    } else {
      NothingFollows();
      ListFits(news, known, current);
      assert due[..0] == [];
      assert [] + due == due;
    }
  }

  lemma TellingWatch(s: State, step: Step, t: State, i: nat)
    requires Inv(s) && step.EndScan? && Next(s, step, t) && i < |s.watches|
    ensures var w := s.watches[i];
            && w.id in t.channels && t.channels[w.id].open
            && Queued(t.channels[w.id]) && Follows(t.channels[w.id].sent)
            && s.channels[w.id].sent <= t.channels[w.id].sent
            && var due := Due(w.listed, step.news);
               && (Watching(t.watches, w.id) <==> t.channels[w.id].sent == s.channels[w.id].sent + due)
               && (Watching(t.watches, w.id) ==> UpToDate(t.channels[w.id].sent, true, t.known))
  {
    hide Follows, Replay, IsNews, Offered, Queued, UpToDate;
    var w := s.watches[i];
    assert w in s.watches;
    TellingOne(s.channels[w.id], w.listed, s.known, step.current, step.news, PaceFor(step.paces, i));
    ToldOne(s.watches, s.channels, step.news, step.paces, |s.watches|, i);
    if Fate(s.watches, s.channels, step.news, step.paces, i).1 {
      var k :| 0 <= k < |t.watches| && t.watches[k] == Watch(w.id, true);
    }
    if Watching(t.watches, w.id) {
      var k :| 0 <= k < |t.watches| && t.watches[k].id == w.id;
      var j := KeptOne(s.watches, s.channels, step.news, step.paces, |s.watches|, k);
      assert i == j;
    }
  }

  lemma EndScanKeeps(s: State, step: Step, t: State)
    requires Inv(s) && step.EndScan? && Next(s, step, t)
    ensures Inv(t) && forall w :: w in t.watches ==> w.listed
  {
    hide Follows, Replay, IsNews, Offered, Queued, UpToDate, Told;
    var n := |s.watches|;
    KeptDistinct(s.watches, s.channels, step.news, step.paces, n);
    forall k | 0 <= k < |t.watches|
      ensures var w := t.watches[k];
              && w.listed && w.id in t.channels && t.channels[w.id].open && |t.watches| <= n
              && UpToDate(t.channels[w.id].sent, true, t.known)
    {
      var i := KeptOne(s.watches, s.channels, step.news, step.paces, n, k);
      assert Watching(t.watches, s.watches[i].id);
      TellingWatch(s, step, t, i);
    }
    assert t.watches != [] ==> t.watches[0].listed;
    forall id | id in t.channels ensures id < t.nextId && Queued(t.channels[id]) && Follows(t.channels[id].sent) {
      assert id in s.channels;
      if Watching(s.watches, id) {
        var i :| 0 <= i < n && s.watches[i].id == id;
        TellingWatch(s, step, t, i);
      } else {
        ToldOther(s.watches, s.channels, step.news, step.paces, n, id);
      }
    }
  }

  lemma StepKeeps(s: State, step: Step, t: State)
    requires Inv(s) && Next(s, step, t)
    ensures Inv(t)
  {
    hide Inv, Next;
    if step.EndScan? {
      EndScanKeeps(s, step, t);
    } else if step.Register? || step.DropReceiver? || step.Receive? {
      ChannelStepKeeps(s, step, t);
    } else {
      TableStepKeeps(s, step, t);
    }
  }

  // ---------------------------------------------------------------------
  // Whole runs
  // ---------------------------------------------------------------------

  ghost predicate Run(states: seq<State>, steps: seq<Step>)
  {
    && |states| == |steps| + 1 && states[0] == Init
    && forall k :: 0 <= k < |steps| ==> Next(states[k], steps[k], states[k + 1])
  }

  function LatestScan(steps: seq<Step>): (r: Option<Scan>)
  {
    if steps == [] then None
    else
      var last := steps[|steps| - 1];
      if last.EndScan? then Some(last.current) else LatestScan(steps[..|steps| - 1])
  }

  lemma {:induction false} EveryRunKeeps(states: seq<State>, steps: seq<Step>, k: nat)
    requires Run(states, steps) && k <= |steps|
    ensures Inv(states[k])
    ensures states[k].known.Some? ==> states[k].known == LatestScan(steps[..k])
  {
    hide Next, Inv;
    if k == 0 {
      InitIsSound();
    } else {
      EveryRunKeeps(states, steps, k - 1);
      StepKeeps(states[k - 1], steps[k - 1], states[k]);
      KnownAfter(states[k - 1], steps[k - 1], states[k]);
      assert steps[..k][..k - 1] == steps[..k - 1];
    }
  }

  lemma InitIsSound()
    ensures Inv(Init)
  {
  }

  lemma KnownAfter(s: State, step: Step, t: State)
    requires Next(s, step, t)
    ensures t.known == if step.EndScan? then Some(step.current) else if step.Idle? then None else s.known
  {
    hide Told, IsNews, HasChannels, Without;
  }

  /** At every moment, what a listed watch was sent adds up to the latest scan. */
  lemma ListedWatchesShowTheLatestScan(states: seq<State>, steps: seq<Step>, k: nat, w: Watch)
    requires Run(states, steps) && k <= |steps| && w in states[k].watches && w.listed
    ensures w.id in states[k].channels && LatestScan(steps[..k]).Some?
    ensures Replay(states[k].channels[w.id].sent) == LatestScan(steps[..k]).value.Keys
  {
    EveryRunKeeps(states, steps, k);
  }

  /** After every scan every watch left is listed and shows that scan, whenever it came. */
  lemma EveryWatchShowsTheScan(states: seq<State>, steps: seq<Step>, k: nat, w: Watch)
    requires Run(states, steps) && k < |steps| && steps[k].EndScan? && w in states[k + 1].watches
    ensures w.listed && w.id in states[k + 1].channels
    ensures Replay(states[k + 1].channels[w.id].sent) == steps[k].current.Keys
  {
    EveryRunKeeps(states, steps, k);
    EndScanKeeps(states[k], steps[k], states[k + 1]);
    ListedWatchesShowTheLatestScan(states, steps, k + 1, w);
    assert steps[..k + 1][k] == steps[k];
  }

  /** After every scan, every watch left shows for each port the owner it was first told since the
      port came up: this scan's for a port that is new or a watch that is, else the one before. */
  lemma EveryWatchShowsTheOwners(states: seq<State>, steps: seq<Step>, k: nat, w: Watch, key: Key)
    requires Run(states, steps) && k < |steps| && steps[k].EndScan? && w in states[k].watches
    requires Watching(states[k + 1].watches, w.id)
    ensures w.id in states[k].channels && w.id in states[k + 1].channels
    ensures var before, after := states[k].channels[w.id].sent, states[k + 1].channels[w.id].sent;
            OwnerShown(after, key) ==
            if key !in steps[k].current then None
            else if w.listed && states[k].known.Some? && key in states[k].known.value then OwnerShown(before, key)
            else Some(steps[k].current[key])
  {
    hide Follows, Replay, Offered, Told, OwnerShown;
    EveryRunKeeps(states, steps, k);
    var i :| 0 <= i < |states[k].watches| && states[k].watches[i] == w;
    TellingWatch(states[k], steps[k], states[k + 1], i);
    OwnersAfterScan(states[k].channels[w.id].sent, w.listed, states[k].known, steps[k].current, steps[k].news, key);
  }

  /** So a watch that showed the right owner goes on doing so through a scan exactly unless the port
      was there before and has changed hands: a change of owner alone is no news. */
  lemma OwnerIsRightExactlyUnlessItChanged(states: seq<State>, steps: seq<Step>, k: nat, w: Watch, key: Key)
    requires Run(states, steps) && k < |steps| && steps[k].EndScan? && w in states[k].watches
    requires Watching(states[k + 1].watches, w.id) && key in steps[k].current
    requires w.id in states[k].channels
    requires w.listed && states[k].known.Some? && key in states[k].known.value ==>
               OwnerShown(states[k].channels[w.id].sent, key) == Some(states[k].known.value[key])
    ensures w.id in states[k + 1].channels
    ensures OwnerShown(states[k + 1].channels[w.id].sent, key) == Some(steps[k].current[key]) <==>
            !(&& w.listed && states[k].known.Some? && key in states[k].known.value
              && states[k].known.value[key] != steps[k].current[key])
  {
    hide OwnerShown, Run;
    EveryWatchShowsTheOwners(states, steps, k, w, key);
  }

  /** That happens: one process takes over the port of another between two scans. */
  lemma OwnerCanBeStale(key: Key) returns (states: seq<State>, steps: seq<Step>)
    ensures Run(states, steps) && LatestScan(steps) == Some(map[key := 2])
    ensures var s := states[|steps|];
            s.watches == [Watch(0, true)] && 0 in s.channels && OwnerShown(s.channels[0].sent, key) == Some(1)
  {
    hide Next, OwnerShown;
    var p := Port(key, 1);
    var s1, s2 := OneWatchComes();
    var s3, step2 := FirstScan(s2, p);
    var s4, s5, step4 := SecondScan(s3, p);
    states := [Init, s1, s2, s3, s4, s5];
    steps := [Register, BeginScan(false), step2, BeginScan(true), step4];
    assert steps[|steps| - 1] == step4;
    OwnerOfOne(p);
  }

  lemma OneWatchComes() returns (s1: State, s2: State)
    ensures Next(Init, Register, s1) && Next(s1, BeginScan(false), s2)
    ensures s2 == State([Watch(0, false)], map[0 := Channel([], 0, true)], 0, false, 1, None, true)
  {
    s1 := State([Watch(0, false)], map[0 := Channel([], 0, true)], 0, true, 1, None, false);
    s2 := s1.(pending := false, scanning := true);
  }

  lemma FirstScan(s: State, p: Port) returns (t: State, step: Step)
    requires s == State([Watch(0, false)], map[0 := Channel([], 0, true)], 0, false, 1, None, true) && p.pid == 1
    ensures Next(s, step, t) && step.EndScan?
    ensures t == State([Watch(0, true)], map[0 := Channel([PortList([p])], 0, true)], 0, false, 1,
                       Some(map[p.key := 1]), false)
  {
    hide IsNews, Told;
    var news := News([p], [p], []);
    NewsOfOne(p.key);
    ToldTheList(p, news);
    step := EndScan(map[p.key := 1], news, []);
    t := State([Watch(0, true)], map[0 := Channel([PortList([p])], 0, true)], 0, false, 1,
               Some(map[p.key := 1]), false);
  }

  lemma SecondScan(s: State, p: Port) returns (t: State, u: State, step: Step)
    requires s == State([Watch(0, true)], map[0 := Channel([PortList([p])], 0, true)], 0, false, 1,
                        Some(map[p.key := 1]), false)
    requires p.pid == 1
    ensures Next(s, BeginScan(true), t) && Next(t, step, u) && step.EndScan? && step.current == map[p.key := 2]
    ensures u.watches == s.watches && u.channels == s.channels
  {
    hide IsNews, Told;
    var news := News([Port(p.key, 2)], [], []);
    NewsOfOne(p.key);
    ToldNothing(p, news);
    t := s.(scanning := true);
    step := EndScan(map[p.key := 2], news, []);
    u := s.(known := Some(map[p.key := 2]));
  }

  lemma OneListed(key: Key, pid: nat)
    ensures var scan: Scan := map[key := pid]; Enumerates([Port(key, pid)], scan, {key}) && Enumerates([], scan, {})
  {
    assert [Port(key, pid)][0].key == key;
  }

  lemma NewsOfOne(key: Key)
    ensures var p, q, one, two := Port(key, 1), Port(key, 2), map[key := 1], map[key := 2];
            IsNews(News([p], [p], []), None, one) && IsNews(News([q], [], []), Some(one), two)
  {
    OneListed(key, 1);
    OneListed(key, 2);
    var none: Scan, one: Scan, two: Scan := map[], map[key := 1], map[key := 2];
    assert one.Keys == {key} && two.Keys == {key} && none.Keys == {};
    assert one.Keys - none.Keys == {key} && none.Keys - one.Keys == {};
    assert two.Keys - one.Keys == {} && one.Keys - two.Keys == {};
  }

  /** Telling the only watch. */
  lemma ToldOnly(watches: seq<Watch>, channels: Channels, w: Watch, c: Channel, news: News)
    requires watches == [w] && channels == map[w.id := c]
    ensures var offered := Offered(c, Due(w.listed, news), []);
            && Told(watches, channels, news, [], 1).0 == (if offered.1 then [Watch(w.id, true)] else [])
            && Told(watches, channels, news, [], 1).1 == map[w.id := offered.0]
  {
    hide Offered, Due;
    var none := Told(watches, channels, news, [], 0);
    assert none.0 == [] && none.1 == channels && watches[0] == w && PaceFor([], 0) == [];
    var offered := Offered(c, Due(w.listed, news), []);
    assert Told(watches, channels, news, [], 1).1 == channels[w.id := offered.0];
    assert channels[w.id := offered.0] == map[w.id := offered.0];
  }

  lemma ToldTheList(p: Port, news: News)
    requires news.list == [p]
    ensures Told([Watch(0, false)], map[0 := Channel([], 0, true)], news, [], 1) ==
            ([Watch(0, true)], map[0 := Channel([PortList([p])], 0, true)])
  {
    hide Told;
    var c, e := Channel([], 0, true), PortList([p]);
    ToldOnly([Watch(0, false)], map[0 := c], Watch(0, false), c, news);
    OfferedOne(c, e);
  }

  lemma OfferedOne(c: Channel, e: Event)
    requires c == Channel([], 0, true)
    ensures Offered(c, [e], []) == (Channel([e], 0, true), true)
  {
    assert [e][1..] == [] && c.sent + [e] == [e];
    assert Received(c, PaceOf([])) == c;
    assert Offered(c, [e], []) == Offered(c.(sent := [e]), [e][1..], Rest([]));
  }

  lemma ToldNothing(p: Port, news: News)
    requires news.came == [] && news.went == []
    ensures Told([Watch(0, true)], map[0 := Channel([PortList([p])], 0, true)], news, [], 1) ==
            ([Watch(0, true)], map[0 := Channel([PortList([p])], 0, true)])
  {
    hide Told;
    var c := Channel([PortList([p])], 0, true);
    ToldOnly([Watch(0, true)], map[0 := c], Watch(0, true), c, news);
    assert Due(true, news) == [];
  }

  lemma OwnerOfOne(p: Port)
    ensures OwnerShown([PortList([p])], p.key) == Some(p.pid)
  {
    assert [PortList([p])][..0] == [];
  }

  /** A scan drops a watch exactly when it misses some of what it is due. */
  lemma DroppedExactlyWhenItMisses(states: seq<State>, steps: seq<Step>, k: nat, w: Watch)
    requires Run(states, steps) && k < |steps| && steps[k].EndScan? && w in states[k].watches
    ensures w.id in states[k].channels && w.id in states[k + 1].channels
    ensures var before, after := states[k].channels[w.id].sent, states[k + 1].channels[w.id].sent;
            && before <= after
            && (!Watching(states[k + 1].watches, w.id) <==> after != before + Due(w.listed, steps[k].news))
  {
    EveryRunKeeps(states, steps, k);
    var i :| 0 <= i < |states[k].watches| && states[k].watches[i] == w;
    TellingWatch(states[k], steps[k], states[k + 1], i);
  }

  /** What any client has received, dropped or not, is the list and then changes that fit. */
  lemma WhatIsReceivedFits(states: seq<State>, steps: seq<Step>, k: nat, id: Id)
    requires Run(states, steps) && k <= |steps| && id in states[k].channels
    ensures var c := states[k].channels[id];
            && c.taken <= |c.sent| <= c.taken + WATCH_BACKLOG && Follows(c.sent[..c.taken])
  {
    EveryRunKeeps(states, steps, k);
    var c := states[k].channels[id];
    var got := c.sent[..c.taken];
    forall i | 0 <= i < |got| ensures Fits(got[..i], got[i]) {
      assert got[..i] == c.sent[..i];
    }
  }

  /** A registration is taken on exactly when there is room, under an id never used before. */
  lemma RegisteredExactlyWhenRoom(states: seq<State>, steps: seq<Step>, k: nat)
    requires Run(states, steps) && k < |steps| && steps[k].Register?
    ensures var id := states[k].nextId;
            && id !in states[k].channels
            && (Watch(id, false) in states[k + 1].watches <==> |states[k].watches| < MAX_WATCHES)
            && (|states[k].watches| < MAX_WATCHES ==>
                  id in states[k + 1].channels && states[k + 1].channels[id] == Channel([], 0, true))
  {
    EveryRunKeeps(states, steps, k);
    assert Next(states[k], steps[k], states[k + 1]);
    hide Run;
    if |states[k].watches| >= MAX_WATCHES {
      assert forall w :: w in states[k].watches ==> w.id in states[k].channels;
    }
  }

  /** A watch leaves by its own dropping or by missing news of a scan, and in no other way. */
  lemma WatchStays(states: seq<State>, steps: seq<Step>, k: nat, w: Watch)
    requires Run(states, steps) && k < |steps| && w in states[k].watches
    requires steps[k] != Unregister(w.id) && !steps[k].EndScan?
    ensures w in states[k + 1].watches
  {
    assert Next(states[k], steps[k], states[k + 1]);
    if steps[k].Unregister? {
      WithoutKeeps(states[k].watches, steps[k].id);
    }
  }

  lemma ClosedStep(s: State, step: Step, t: State, id: Id)
    requires Inv(s) && Next(s, step, t) && id in s.channels && !s.channels[id].open
    ensures id in t.channels && t.channels[id] == s.channels[id]
  {
    hide Follows, Replay, Offered, IsNews;
    if step.EndScan? {
      assert forall j :: 0 <= j < |s.watches| ==> s.watches[j] in s.watches && s.watches[j].id != id;
      ToldOther(s.watches, s.channels, step.news, step.paces, |s.watches|, id);
    }
  }

  /** Nothing is sent to a receiver that was dropped. */
  lemma {:induction false} NothingForADropped(states: seq<State>, steps: seq<Step>, m: nat, k: nat)
    requires Run(states, steps) && m < k <= |steps| && steps[m].DropReceiver?
    ensures var id := steps[m].id;
            && id in states[m].channels && id in states[k].channels
            && states[k].channels[id] == states[m].channels[id].(open := false)
    decreases k
  {
    hide Inv;
    if k == m + 1 {
      assert Next(states[m], steps[m], states[k]);
    } else {
      NothingForADropped(states, steps, m, k - 1);
      EveryRunKeeps(states, steps, k - 1);
      ClosedStep(states[k - 1], steps[k - 1], states[k], steps[m].id);
    }
  }

  /** A receiver gets what it asks for of what was sent, in order. */
  lemma ReceivingTakes(states: seq<State>, steps: seq<Step>, k: nat)
    requires Run(states, steps) && k < |steps| && steps[k].Receive?
    ensures var id := steps[k].id;
            && id in states[k].channels && id in states[k + 1].channels
            && var c, d := states[k].channels[id], states[k + 1].channels[id];
               c.taken <= |c.sent| && d == c.(taken := Min(c.taken + steps[k].n, |c.sent|))
  {
    EveryRunKeeps(states, steps, k);
    assert Next(states[k], steps[k], states[k + 1]);
  }

  /** Since the last scan began, a watch has come. */
  ghost predicate CameSince(states: seq<State>, steps: seq<Step>, k: nat)
    requires k <= |steps| < |states|
  {
    k > 0 && !steps[k - 1].BeginScan? &&
    ((steps[k - 1].Register? && |states[k - 1].watches| < MAX_WATCHES) || CameSince(states, steps, k - 1))
  }

  /** A scan is under way: one began and has not ended. */
  ghost predicate UnderWay(steps: seq<Step>, k: nat)
    requires k <= |steps|
  {
    k > 0 && !steps[k - 1].EndScan? && (steps[k - 1].BeginScan? || UnderWay(steps, k - 1))
  }

  /** The scanner scans one scan at a time, and knows of a new watch exactly when one came since it
      last began. So with ports known it begins early for a new watch and for nothing else. */
  lemma {:induction false} ScansAsAsked(states: seq<State>, steps: seq<Step>, k: nat)
    requires Run(states, steps) && k <= |steps|
    ensures states[k].pending <==> CameSince(states, steps, k)
    ensures states[k].scanning <==> UnderWay(steps, k)
    ensures k < |steps| && steps[k].BeginScan? ==>
              && !UnderWay(steps, k)
              && (states[k].known.None? || steps[k].due || CameSince(states, steps, k))
  {
    hide Next;
    if k > 0 {
      ScansAsAsked(states, steps, k - 1);
      ScanStep(states[k - 1], steps[k - 1], states[k]);
    }
    if k < |steps| && steps[k].BeginScan? {
      BeginsWhen(states[k], steps[k], states[k + 1]);
    }
  }

  lemma BeginsWhen(s: State, step: Step, t: State)
    requires Next(s, step, t) && step.BeginScan?
    ensures !s.scanning && (s.known.None? || step.due || s.pending)
  {
  }

  lemma ScanStep(s: State, step: Step, t: State)
    requires Next(s, step, t)
    ensures t.pending <==>
            !step.BeginScan? && ((step.Register? && |s.watches| < MAX_WATCHES) || s.pending)
    ensures t.scanning <==> !step.EndScan? && (step.BeginScan? || s.scanning)
  {
    hide Told, IsNews, HasChannels, Without;
  }

  /** The scanner never meets a dropped receiver, nor sleeps on a watch without its list. */
  lemma NewWatchesAreSeenTo(states: seq<State>, steps: seq<Step>, k: nat, w: Watch)
    requires Run(states, steps) && k <= |steps| && w in states[k].watches
    ensures |states[k].watches| <= MAX_WATCHES
    ensures w.id in states[k].channels && states[k].channels[w.id].open
    ensures w.listed || states[k].pending || states[k].scanning
  {
    EveryRunKeeps(states, steps, k);
  }
}
