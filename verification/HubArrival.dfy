/**
 Who sits in which hub (apps/realtime/src/hub.ts, `HubManager.addClient` and `removeClient`) when calls
 interleave: the client that makes a site's hub awaits two subscriptions before it is added to that hub.
 */
module HubArrivals {
  import opened Options
  import opened Hub

  /**
   Where a stream stands: its `addClient` awaits `left` more subscriptions, it has been added to a hub, or its
   `removeClient` has run.
   */
  datatype Place =
    | Awaiting(site: string, hub: nat, left: nat)
    | In(site: string, hub: nat)
    | Gone

  /**
   `hubs` is the manager's map.  Hub objects are numbered as they are made, `owners` being the sites they were
   made for; a hub's clients are those added to it and not removed since.
   */
  datatype Desk = Desk(hubs: map<string, nat>, owners: seq<string>, places: map<Client, Place>)

  const EMPTY := Desk(map[], [], map[])

  datatype Event =
    | Arrive(client: Client, site: string)
    | Subscribed(client: Client)
    | Depart(client: Client)

  /** A stream arrives once, and leaves only when its `addClient` is over (apps/realtime/src/stream.ts). */
  predicate Enabled(d: Desk, e: Event) {
    match e
    case Arrive(c, _) => c !in d.places
    case Subscribed(c) => c in d.places && d.places[c].Awaiting?
    case Depart(c) => c in d.places && d.places[c].In?
  }

  function Others(d: Desk, hub: nat, c: Client): set<Client> {
    set x | x in d.places && x != c && d.places[x].In? && d.places[x].hub == hub
  }

  function Step(d: Desk, e: Event): Desk
    requires Enabled(d, e)
  {
    match e
    case Arrive(c, site) =>
      if site in d.hubs then d.(places := d.places[c := In(site, d.hubs[site])])
      else
        var hub := |d.owners|;
        Desk(d.hubs[site := hub], d.owners + [site], d.places[c := Awaiting(site, hub, 2)])
    case Subscribed(c) =>
      var p := d.places[c];
      d.(places := d.places[c := if p.left > 1 then p.(left := p.left - 1) else In(p.site, p.hub)])
    case Depart(c) =>
      var site, d' := d.places[c].site, d.(places := d.places[c := Gone]);
      if site in d.hubs && Others(d, d.hubs[site], c) == {} then d'.(hubs := d.hubs - {site}) else d'
  }

  /** The state after a run of calls and answers, or None if the run is impossible. */
  function After(run: seq<Event>): Option<Desk> {
    if run == [] then Some(EMPTY)
    else
      var before := After(run[..|run|-1]);
      if before.Some? && Enabled(before.value, run[|run|-1]) then Some(Step(before.value, run[|run|-1])) else None
  }

  // ----- everyone where messages go -----

  /** The stream sits in, or will be added to, the hub that its site's messages go to. */
  predicate Reachable(d: Desk, c: Client) {
    && c in d.places && !d.places[c].Gone?
    && d.places[c].site in d.hubs && d.hubs[d.places[c].site] == d.places[c].hub
  }

  ghost predicate AllReachable(d: Desk) {
    forall c :: c in d.places && !d.places[c].Gone? ==> Reachable(d, c)
  }

  /** A hub is that of one site for good. */
  ghost predicate Owned(d: Desk) {
    && (forall site :: site in d.hubs ==> d.hubs[site] < |d.owners| && d.owners[d.hubs[site]] == site)
    && (forall c :: c in d.places && !d.places[c].Gone? ==>
          d.places[c].hub < |d.owners| && d.owners[d.places[c].hub] == d.places[c].site)
  }

  lemma StepOwned(d: Desk, e: Event)
    requires Owned(d) && Enabled(d, e)
    ensures Owned(Step(d, e))
  {
  }

  /** The last client of a hub is removed while another one's `addClient` still awaits it. */
  predicate Strands(d: Desk, e: Event) {
    && e.Depart? && e.client in d.places && d.places[e.client].In? && d.places[e.client].site in d.hubs
    && var hub := d.hubs[d.places[e.client].site];
    && Others(d, hub, e.client) == {}
    && exists c :: c in d.places && d.places[c].Awaiting? && d.places[c].hub == hub
  }

  /** A step keeps everyone reachable exactly when it does not drop a hub that a stream still awaits. */
  lemma ReachableExactly(d: Desk, e: Event)
    requires Owned(d) && AllReachable(d) && Enabled(d, e)
    ensures AllReachable(Step(d, e)) <==> !Strands(d, e)
  {
    if e.Depart? { DepartReachable(d, e.client); }
  }

  lemma DepartReachable(d: Desk, c: Client)
    requires Owned(d) && AllReachable(d) && Enabled(d, Depart(c))
    ensures AllReachable(Step(d, Depart(c))) <==> !Strands(d, Depart(c))
  {
    var d', site := Step(d, Depart(c)), d.places[c].site;
    var hub := d.hubs[site];
    if Strands(d, Depart(c)) {
      var x :| x in d.places && d.places[x].Awaiting? && d.places[x].hub == hub;
      assert !Reachable(d', x);
    } else {
      forall x | x in d'.places && !d'.places[x].Gone? ensures Reachable(d', x) {
        assert Reachable(d, x);
        assert d.places[x].In? && d.places[x].hub == hub ==> x in Others(d, hub, c);
      }
    }
  }

  // ----- runs -----

  /** No step of the run strands anyone. */
  predicate Careful(run: seq<Event>) {
    run != [] ==>
      var before := After(run[..|run|-1]);
      Careful(run[..|run|-1]) && (before.Some? ==> !Strands(before.value, run[|run|-1]))
  }

  lemma {:induction false} AfterOwned(run: seq<Event>)
    requires After(run).Some?
    ensures Owned(After(run).value)
  {
    if run != [] {
      AfterOwned(run[..|run|-1]);
      StepOwned(After(run[..|run|-1]).value, run[|run|-1]);
    }
  }

  /** A hub is in the map exactly while some stream has come for its site and not gone. */
  ghost predicate HubsExactlyWhileWanted(d: Desk) {
    forall site :: site in d.hubs <==>
      exists c :: c in d.places && !d.places[c].Gone? && d.places[c].site == site
  }

  lemma StepWanted(d: Desk, e: Event)
    requires Owned(d) && AllReachable(d) && HubsExactlyWhileWanted(d) && Enabled(d, e) && !Strands(d, e)
    ensures HubsExactlyWhileWanted(Step(d, e))
  {
    var d' := Step(d, e);
    ReachableExactly(d, e);
    forall site | site in d'.hubs ensures exists c :: c in d'.places && !d'.places[c].Gone? && d'.places[c].site == site {
      if e.Arrive? && e.site == site {
        assert d'.places[e.client].site == site;
      } else {
        var c :| c in d.places && !d.places[c].Gone? && d.places[c].site == site;
        if e.Depart? && c == e.client {
          var x :| x in Others(d, d.hubs[site], c);
          assert d'.places[x].site == site;
        } else {
          assert d'.places[c].site == site;
        }
      }
    }
  }

  /**
   In a run that strands nobody, every stream is where its site's messages go, and a site has a hub exactly while
   somebody wants it.
   */
  lemma {:induction false} CarefulRunsReachAll(run: seq<Event>)
    requires After(run).Some? && Careful(run)
    ensures AllReachable(After(run).value) && HubsExactlyWhileWanted(After(run).value)
  {
    if run != [] {
      var d := After(run[..|run|-1]).value;
      CarefulRunsReachAll(run[..|run|-1]);
      AfterOwned(run[..|run|-1]);
      ReachableExactly(d, run[|run|-1]);
      StepWanted(d, run[|run|-1]);
    }
  }

  ghost predicate AlwaysReachable(run: seq<Event>)
    requires After(run).Some?
  {
    AllReachable(After(run).value) && (run != [] ==> AlwaysReachable(run[..|run|-1]))
  }

  /** Messages could reach every stream throughout exactly when the run stranded nobody. */
  lemma {:induction false} AlwaysReachableExactly(run: seq<Event>)
    requires After(run).Some?
    ensures AlwaysReachable(run) <==> Careful(run)
  {
    if run != [] {
      var before := run[..|run|-1];
      AlwaysReachableExactly(before);
      AfterOwned(before);
      if AllReachable(After(before).value) { ReachableExactly(After(before).value, run[|run|-1]); }
    }
  }

  // ----- stranded streams -----

  lemma StepKeepsOut(d: Desk, e: Event, c: Client)
    requires Owned(d) && Enabled(d, e) && c in d.places && !Reachable(d, c)
    ensures c in Step(d, e).places && !Reachable(Step(d, e), c)
  {
  }

  /** Whoever is stranded stays so, whatever comes, until it leaves: no message for its site reaches it again. */
  lemma {:induction false} StrandedForGood(run: seq<Event>, more: seq<Event>, c: Client)
    requires After(run).Some? && After(run + more).Some?
    requires c in After(run).value.places && !Reachable(After(run).value, c)
    ensures c in After(run + more).value.places && !Reachable(After(run + more).value, c)
    decreases |more|
  {
    if more == [] {
      assert run + more == run;
    } else {
      var all := run + more;
      assert all[..|all|-1] == run + more[..|more|-1];
      StrandedForGood(run, more[..|more|-1], c);
      AfterOwned(run + more[..|more|-1]);
      StepKeepsOut(After(all[..|all|-1]).value, all[|all|-1], c);
    }
  }

  function Snoc(run: seq<Event>, d: Desk, e: Event): (more: seq<Event>)
    requires After(run) == Some(d) && Enabled(d, e)
    ensures After(more) == Some(Step(d, e)) && more != [] && more[..|more|-1] == run && more[|more|-1] == e
  {
    run + [e]
  }

  /**
   A viewer `a` makes the hub, another one `b` joins it at once and leaves before the subscriptions are there:
   `a` ends up in a hub that the manager no longer has.
   */
  lemma VisitorStrandsTheFirst(a: Client, b: Client, site: string) returns (run: seq<Event>)
    requires a != b
    ensures After(run).Some? && !Careful(run)
    ensures var d := After(run).value; d.places == map[a := In(site, 0), b := Gone] && d.hubs == map[]
  {
    var d0 := EMPTY;
    run := Snoc([], d0, Arrive(a, site));
    var d1 := Step(d0, Arrive(a, site));
    run := Snoc(run, d1, Arrive(b, site));
    var d2 := Step(d1, Arrive(b, site));
    run := Snoc(run, d2, Depart(b));
    assert Others(d2, 0, b) == {};
    var d3 := Step(d2, Depart(b));
    assert d2.places[a] == Awaiting(site, 0, 2);
    assert Strands(d2, Depart(b)) && !Careful(run);
    run := Snoc(run, d3, Subscribed(a));
    var d4 := Step(d3, Subscribed(a));
    run := Snoc(run, d4, Subscribed(a));
  }
}
