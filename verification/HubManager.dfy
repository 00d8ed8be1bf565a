/**
 The hub manager (apps/realtime/src/hub.ts, `HubManager`): a hub for each site that has a viewer.  Adding
 a client, with its first frame, and removing one are each a single step here; HubArrivals lets them interleave.
 */
module HubManagers {
  import opened Options
  import opened Hub
  import opened SiteHubs

  type Fleet = map<string, State>

  datatype Call =
    | Open(client: Client, last: Option<int>)
    | Close(client: Client)
    | Heard(event: Event)
    | End

  /** A call about one site; `End` is about all of them. */
  datatype TimedCall = TimedCall(at: nat, site: string, call: Call)

  /** Events a hub meets on its own: messages, timers and completions. */
  predicate Inner(e: Event) { !e.Join? && !e.Leave? && !e.Shutdown? }

  predicate CallEnabled(fleet: Fleet, c: TimedCall) {
    match c.call
    case Open(client, last) => c.site in fleet ==> Enabled(fleet[c.site], c.at, Join(client, last))
    case Heard(e) => Inner(e) && (c.site in fleet ==> Enabled(fleet[c.site], c.at, e))
    case _ => true
  }

  function FleetStep(cfg: Config, fleet: Fleet, c: TimedCall): Fleet
    requires CallEnabled(fleet, c)
  {
    match c.call
    case Open(client, last) =>
      var hub := if c.site in fleet then fleet[c.site] else Fresh(c.at);
      fleet[c.site := Step(cfg, hub, c.at, Join(client, last))]
    case Close(client) =>
      if c.site !in fleet then fleet
      else
        var hub := Step(cfg, fleet[c.site], c.at, Leave(client));
        if hub.clients == [] then fleet - {c.site} else fleet[c.site := hub]
    case Heard(e) =>
      if c.site in fleet then fleet[c.site := Step(cfg, fleet[c.site], c.at, e)] else fleet
    case End => map[]
  }

  /** What a hub hears, a timer or a read's end among it, moves that hub as it would move one alone, and no other. */
  lemma HubsMoveAlone(cfg: Config, fleet: Fleet, c: TimedCall, other: string)
    requires CallEnabled(fleet, c) && other != c.site && !c.call.End?
    ensures other in FleetStep(cfg, fleet, c) <==> other in fleet
    ensures other in fleet ==> FleetStep(cfg, fleet, c)[other] == fleet[other]
    ensures c.call.Heard? && c.site in fleet ==>
      && c.site in FleetStep(cfg, fleet, c)
      && FleetStep(cfg, fleet, c)[c.site] == Step(cfg, fleet[c.site], c.at, c.call.event)
  {
  }

  // ----- channels and messages -----

  const UPDATES := "rt_updates:"
  const CONTROL := "rt_control:"

  function UpdatesChannel(site: string): string { UPDATES + site }

  function ControlChannel(site: string): string { CONTROL + site }

  /**
   A message body: not JSON; JSON that is no object (a null among them, on which reading a field throws); or an
   object of which only a text subject and a numeric epoch are read.
   */
  datatype Body = Unparsable | NoObject | Parsed(subject: Option<string>, epoch: Option<int>)

  predicate StartsWith(s: string, prefix: string) { |prefix| <= |s| && s[..|prefix|] == prefix }

  /** Which site a message is for and what it tells the site's hub; None: nothing. */
  function Routed(channel: string, body: Body): Option<(string, Event)> {
    if StartsWith(channel, UPDATES) then Some((channel[|UPDATES|..], Update))
    else if StartsWith(channel, CONTROL) && body.Parsed? && body.subject.Some? && body.epoch.Some?
    then Some((channel[|CONTROL|..], ControlMessage(body.subject.value, body.epoch.value)))
    else None
  }

  /** A site's channels reach that site and no other, whatever its name, and a control without its fields nobody. */
  lemma ChannelsReachTheirSite(site: string, subject: string, epoch: int, body: Body)
    ensures Routed(UpdatesChannel(site), body) == Some((site, Update))
    ensures Routed(ControlChannel(site), Parsed(Some(subject), Some(epoch))) == Some((site, ControlMessage(subject, epoch)))
    ensures !(body.Parsed? && body.subject.Some? && body.epoch.Some?) ==> Routed(ControlChannel(site), body) == None
  {
    PrefixCut(UPDATES, site);
    PrefixCut(CONTROL, site);
    assert UPDATES[3] != CONTROL[3];
    assert ControlChannel(site)[..|UPDATES|][3] == CONTROL[3];
  }

  lemma PrefixCut(prefix: string, site: string)
    ensures StartsWith(prefix + site, prefix) && (prefix + site)[|prefix|..] == site
  {
  }

  function Delivered(cfg: Config, fleet: Fleet, message: Option<(string, Event)>, at: nat): Fleet {
    match message
    case None => fleet
    case Some((site, e)) =>
      if e.Update? || e.ControlMessage? then FleetStep(cfg, fleet, TimedCall(at, site, Heard(e))) else fleet
  }

  /**
   A message on one of a site's channels takes that site's hub, if there is one, through the update or the control
   message, and leaves every other hub alone; a control message without its fields, and a message on a channel
   that is no site's, do nothing.
   */
  lemma MessagesMoveTheirHub(
    cfg: Config, fleet: Fleet, site: string, subject: string, epoch: int, body: Body, channel: string, at: nat)
    ensures Delivered(cfg, fleet, Routed("rt_updates:" + site, body), at)
      == if site in fleet then fleet[site := Step(cfg, fleet[site], at, Update)] else fleet
    ensures Delivered(cfg, fleet, Routed("rt_control:" + site, Parsed(Some(subject), Some(epoch))), at)
      == if site in fleet then fleet[site := Step(cfg, fleet[site], at, ControlMessage(subject, epoch))] else fleet
    ensures body == Unparsable || body == NoObject || body.subject == None || body.epoch == None ==>
      Delivered(cfg, fleet, Routed("rt_control:" + site, body), at) == fleet
    ensures !("rt_updates:" <= channel) && !("rt_control:" <= channel) ==>
      Delivered(cfg, fleet, Routed(channel, body), at) == fleet
  {
    ChannelsReachTheirSite(site, subject, epoch, body);
    assert UpdatesChannel(site) == "rt_updates:" + site && ControlChannel(site) == "rt_control:" + site;
  }

  function WithHub(fleet: Fleet, site: string, at: nat): Fleet {
    if site in fleet then fleet else fleet[site := Fresh(at)]
  }

  /** Opening is making the hub where there is none, and then the client's join. */
  lemma OpenInTwo(cfg: Config, fleet: Fleet, site: string, c: Client, last: Option<int>, at: nat)
    requires CallEnabled(fleet, TimedCall(at, site, Open(c, last)))
    ensures
      var made := WithHub(fleet, site, at);
      && site in made && c !in made[site].inbox
      && FleetStep(cfg, fleet, TimedCall(at, site, Open(c, last))) == made[site := Step(cfg, made[site], at, Join(c, last))]
  {
  }

  class HubManager {
    const cfg: Config
    var hubs: map<string, SiteHub>

    ghost predicate Valid()
      reads this, hubs.Values
    {
      && (forall site :: site in hubs ==> hubs[site].cfg == cfg)
      && forall site, other :: site in hubs && other in hubs && site != other ==> hubs[site] != hubs[other]
    }

    ghost function View(): Fleet
      reads this, hubs.Values
    {
      map site | site in hubs :: hubs[site].View()
    }

    /** The hubs are separate objects: what one does shows nowhere else. */
    twostate lemma OneHubMoved(site: string)
      requires hubs == old(hubs) && site in hubs
      requires forall other :: other in hubs && other != site ==> hubs[other].View() == old(hubs[other].View())
      ensures View() == old(View())[site := hubs[site].View()]
    {
    }

    twostate lemma HubMade(site: string)
      requires site !in old(hubs) && site in hubs && hubs == old(hubs)[site := hubs[site]]
      requires forall other :: other in old(hubs) ==> old(hubs)[other].View() == old(hubs[other].View())
      ensures View() == old(View())[site := hubs[site].View()]
    {
    }

    twostate lemma HubDropped(site: string)
      requires hubs == old(hubs) - {site}
      requires forall other :: other in old(hubs) && other != site ==> old(hubs)[other].View() == old(hubs[other].View())
      ensures View() == old(View()) - {site}
    {
    }

    constructor (cfg: Config)
      ensures Valid() && View() == map[] && this.cfg == cfg
    {
      this.cfg := cfg;
      hubs := map[];
    }

    method AddClient(site: string, c: Client, last: Option<int>, at: nat)
      requires Valid() && CallEnabled(View(), TimedCall(at, site, Open(c, last)))
      modifies this, if site in hubs then {hubs[site]} else {}
      ensures Valid() && View() == FleetStep(cfg, old(View()), TimedCall(at, site, Open(c, last)))
      ensures forall other :: other in old(hubs) ==> other in hubs && hubs[other] == old(hubs[other])
    {
      OpenInTwo(cfg, View(), site, c, last, at);
      Listen(site, at);
      Connect(site, c, last, at);
    }

    method Connect(site: string, c: Client, last: Option<int>, at: nat)
      requires Valid() && site in hubs && c !in View()[site].inbox
      modifies hubs[site]
      ensures Valid() && hubs == old(hubs)
      ensures View() == old(View())[site := Step(cfg, old(View()[site]), at, Join(c, last))]
    {
      var hub := hubs[site];
      hub.Connect(c, last, at);
      OneHubMoved(site);
    }

    /** The site's hub is made on its first viewer. */
    method Listen(site: string, at: nat)
      requires Valid()
      modifies this`hubs
      ensures Valid() && site in hubs
      ensures site in old(hubs) ==> hubs == old(hubs)
      ensures site !in old(hubs) ==> fresh(hubs[site]) && hubs == old(hubs)[site := hubs[site]]
      ensures View() == WithHub(old(View()), site, at)
    {
      if site !in hubs {
        var hub := new SiteHub(cfg, at);
        hubs := hubs[site := hub];
        HubMade(site);
      }
    }

    method RemoveClient(site: string, c: Client, at: nat)
      requires Valid()
      modifies this, if site in hubs then {hubs[site]} else {}
      ensures Valid() && View() == FleetStep(cfg, old(View()), TimedCall(at, site, Close(c)))
      ensures forall other :: other in hubs ==> other in old(hubs) && hubs[other] == old(hubs[other])
    {
      if site !in hubs { return; }
      var hub := hubs[site];
      hub.Remove(c);
      ghost var left := hub.View();
      if hub.clients == [] {
        hubs := hubs - {site};
        hub.Dispose();
        HubDropped(site);
      } else {
        OneHubMoved(site);
      }
    }

    /** The subscriber's callback. */
    method Dispatch(channel: string, body: Body, at: nat)
      requires Valid()
      modifies hubs.Values
      ensures Valid() && hubs == old(hubs)
      ensures View() == Delivered(cfg, old(View()), Routed(channel, body), at)
    {
      if StartsWith(channel, UPDATES) {
        DispatchUpdate(channel[|UPDATES|..], at);
        return;
      }
      if StartsWith(channel, CONTROL) {
        var site := channel[|CONTROL|..];
        if site !in hubs { return; }
        if body.Unparsable? || body.NoObject? { return; }
        if body.subject.Some? && body.epoch.Some? {
          DispatchControl(site, body.subject.value, body.epoch.value, at);
        }
      }
    }

    method DispatchUpdate(site: string, at: nat)
      requires Valid()
      modifies if site in hubs then {hubs[site]} else {}
      ensures Valid() && hubs == old(hubs)
      ensures View() == FleetStep(cfg, old(View()), TimedCall(at, site, Heard(Update)))
    {
      if site in hubs {
        hubs[site].OnUpdate(at);
        OneHubMoved(site);
      }
    }

    method DispatchControl(site: string, subject: string, epoch: int, at: nat)
      requires Valid()
      modifies if site in hubs then {hubs[site]} else {}
      ensures Valid() && hubs == old(hubs)
      ensures View() == FleetStep(cfg, old(View()), TimedCall(at, site, Heard(ControlMessage(subject, epoch))))
    {
      if site in hubs {
        hubs[site].OnControl(subject, epoch);
        OneHubMoved(site);
      }
    }
  }

  // ----- runs -----

  ghost predicate ValidCalls(cfg: Config, run: seq<TimedCall>)
    decreases |run|, 0
  {
    run != [] ==>
      var before := run[..|run|-1];
      && ValidCalls(cfg, before)
      && Time(before) <= run[|run|-1].at
      && CallEnabled(FleetAfter(cfg, before), run[|run|-1])
  }

  ghost function FleetAfter(cfg: Config, run: seq<TimedCall>): Fleet
    requires ValidCalls(cfg, run)
    decreases |run|, 1
  {
    if run == [] then map[] else FleetStep(cfg, FleetAfter(cfg, run[..|run|-1]), run[|run|-1])
  }

  function Time(run: seq<TimedCall>): nat { if run == [] then 0 else run[|run|-1].at }

  /** The state is one a hub reaches on its own, from its construction, by `now`. */
  ghost predicate Reached(cfg: Config, s: State, now: int) {
    exists created: nat, run :: ReachedBy(cfg, s, now, created, run)
  }

  ghost predicate ReachedBy(cfg: Config, s: State, now: int, created: nat, run: seq<Timed>) {
    ValidRun(cfg, created, run) && After(cfg, created, run) == s && Now(created, run) <= now
  }

  lemma FreshIsReached(cfg: Config, at: nat)
    ensures Reached(cfg, Fresh(at), at)
  {
    assert ReachedBy(cfg, Fresh(at), at, at, []);
  }

  lemma StepIsReached(cfg: Config, s: State, now: int, at: int, e: Event)
    requires Reached(cfg, s, now) && now <= at && Enabled(s, at, e)
    ensures Reached(cfg, Step(cfg, s, at, e), at)
  {
    var created: nat, run :| ReachedBy(cfg, s, now, created, run);
    var more := run + [Timed(at, e)];
    assert more[..|more|-1] == run;
    assert ReachedBy(cfg, Step(cfg, s, at, e), at, created, more);
  }

  lemma LaterIsReached(cfg: Config, s: State, now: int, at: int)
    requires Reached(cfg, s, now) && now <= at
    ensures Reached(cfg, s, at)
  {
    var created: nat, run :| ReachedBy(cfg, s, now, created, run);
    assert ReachedBy(cfg, s, at, created, run);
  }

  lemma FleetStepReached(cfg: Config, fleet: Fleet, now: int, c: TimedCall, site: string)
    requires CallEnabled(fleet, c) && now <= c.at && site in FleetStep(cfg, fleet, c)
    requires site in fleet ==> Reached(cfg, fleet[site], now)
    ensures Reached(cfg, FleetStep(cfg, fleet, c)[site], c.at)
  {
    if site != c.site {
      LaterIsReached(cfg, fleet[site], now, c.at);
    } else {
      match c.call
      case Open(client, last) =>
        if site in fleet {
          StepIsReached(cfg, fleet[site], now, c.at, Join(client, last));
        } else {
          FreshIsReached(cfg, c.at);
          StepIsReached(cfg, Fresh(c.at), c.at, c.at, Join(client, last));
        }
      case Close(client) => StepIsReached(cfg, fleet[site], now, c.at, Leave(client));
      case Heard(e) => StepIsReached(cfg, fleet[site], now, c.at, e);
      case End =>
    }
  }

  /** So whatever holds of every run of one hub holds of every hub the process has. */
  lemma {:induction false} EveryHubIsARun(cfg: Config, run: seq<TimedCall>, site: string)
    requires ValidCalls(cfg, run) && site in FleetAfter(cfg, run)
    ensures Reached(cfg, FleetAfter(cfg, run)[site], Time(run))
  {
    var before := run[..|run|-1];
    if site in FleetAfter(cfg, before) { EveryHubIsARun(cfg, before, site); }
    FleetStepReached(cfg, FleetAfter(cfg, before), Time(before), run[|run|-1], site);
  }

  // ----- hubs and viewers -----

  function Seated(viewers: seq<Client>, call: Call): seq<Client> {
    match call
    case Open(c, _) => if c in viewers then viewers else viewers + [c]
    case Close(c) => Without(viewers, c)
    case Heard(_) => viewers
    case End => []
  }

  /** The site's viewers, read off the calls alone. */
  function Viewers(run: seq<TimedCall>, site: string): seq<Client> {
    if run == [] then [] else ViewersThen(Viewers(run[..|run|-1], site), run[|run|-1], site)
  }

  function ViewersThen(before: seq<Client>, c: TimedCall, site: string): seq<Client> {
    if c.site == site || c.call.End? then Seated(before, c.call) else before
  }

  lemma {:induction false} ResumingKeepsClients(s: State, at: int, ws: seq<Waiter>)
    ensures ResumeAll(s, at, ws).clients == s.clients
    decreases |ws|
  {
    if ws != [] { ResumingKeepsClients(Resume(s, at, ws[0]), at, ws[1..]); }
  }

  lemma StepClients(cfg: Config, s: State, at: int, e: Event)
    requires Enabled(s, at, e)
    ensures e.Join? ==>
      Step(cfg, s, at, e).clients == if e.client in s.clients then s.clients else s.clients + [e.client]
    ensures e.Leave? ==> Step(cfg, s, at, e).clients == Without(s.clients, e.client)
    ensures Inner(e) ==> Step(cfg, s, at, e).clients == s.clients
  {
    if e.ReadDone? { ResumingKeepsClients(Settle(s, at, e.result), at, s.waiters); }
  }

  lemma FleetStepClients(cfg: Config, fleet: Fleet, c: TimedCall, site: string, before: seq<Client>)
    requires CallEnabled(fleet, c)
    requires site in fleet <==> before != []
    requires site in fleet ==> fleet[site].clients == before
    ensures
      var after := ViewersThen(before, c, site);
      && (site in FleetStep(cfg, fleet, c) <==> after != [])
      && (site in FleetStep(cfg, fleet, c) ==> FleetStep(cfg, fleet, c)[site].clients == after)
  {
    if c.site == site {
      match c.call
      case Open(client, last) =>
        StepClients(cfg, if site in fleet then fleet[site] else Fresh(c.at), c.at, Join(client, last));
      case Close(client) => if site in fleet { StepClients(cfg, fleet[site], c.at, Leave(client)); }
      case Heard(e) => if site in fleet { StepClients(cfg, fleet[site], c.at, e); }
      case End =>
    }
  }

  /** A site has a hub exactly while it has a viewer, and the hub's clients are its viewers. */
  lemma {:induction false} HubExactlyWhileViewed(cfg: Config, run: seq<TimedCall>, site: string)
    requires ValidCalls(cfg, run)
    ensures site in FleetAfter(cfg, run) <==> Viewers(run, site) != []
    ensures site in FleetAfter(cfg, run) ==> FleetAfter(cfg, run)[site].clients == Viewers(run, site)
  {
    if run != [] {
      var before := run[..|run|-1];
      HubExactlyWhileViewed(cfg, before, site);
      FleetStepClients(cfg, FleetAfter(cfg, before), run[|run|-1], site, Viewers(before, site));
    }
  }
}
