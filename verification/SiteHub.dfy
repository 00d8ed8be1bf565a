/**
 `SiteHub` in the source's own form: an object whose callbacks update its fields and loop over
 its clients.  Each method is proved against the transition function of module Hub, on which
 the safety and staleness lemmas are stated.
 */
module SiteHubs {
  import opened Options
  import opened Hub

  class SiteHub {
    const cfg: Config
    var clients: seq<Client>
    var cached: Option<Shot>
    var lastComputeMs: int
    var lastComputeSucceeded: bool
    var computing: bool
    var waiters: seq<Waiter>
    var outstanding: nat
    var currentSequence: int
    var lastBroadcastSeq: int
    var degraded: bool
    var trailingTimer: Option<int>
    var refreshTimer: Option<int>
    var lastBroadcastPayload: Option<Presence>
    var lastBroadcastAtMs: int
    var inbox: map<Client, seq<Frame>>
    var closing: set<Client>
    ghost var seed: int
    ghost var shots: seq<Shot>
    ghost var news: seq<News>
    ghost var greeted: set<Client>
    ghost var agreed: set<Client>

    ghost function View(): State
      reads this
    {
      State(clients, cached, lastComputeMs, lastComputeSucceeded, computing, waiters, outstanding,
            currentSequence, lastBroadcastSeq, degraded, trailingTimer, refreshTimer,
            lastBroadcastPayload, lastBroadcastAtMs, inbox, closing, seed, shots, news, greeted, agreed)
    }

    constructor (cfg: Config, at: int)
      ensures View() == Fresh(at) && this.cfg == cfg
    {
      this.cfg := cfg;
      clients, cached, lastComputeMs, lastComputeSucceeded := [], None, 0, false;
      computing, waiters, outstanding := false, [], 0;
      currentSequence, lastBroadcastSeq, degraded := at, 0, false;
      trailingTimer, refreshTimer := None, None;
      lastBroadcastPayload, lastBroadcastAtMs := None, 0;
      inbox, closing := map[], {};
      seed, shots, news, greeted, agreed := at, [], [], {}, {};
    }

    /** Hands one frame to one stream. */
    method Send(c: Client, f: Frame)
      modifies this`inbox
      ensures inbox == Deliver(old(inbox), c, f)
    {
      inbox := inbox[c := (if c in inbox then inbox[c] else []) + [f]];
    }

    method SendAll(f: Frame)
      modifies this`inbox
      ensures inbox == FanOut(old(inbox), clients, f)
    {
      for i := 0 to |clients|
        invariant inbox == FanOut(old(inbox), clients[..i], f)
      {
        Send(clients[i], f);
        assert clients[..i+1][..i] == clients[..i];
      }
      assert clients[..|clients|] == clients;
    }

    /** A new stream: registered, then given its first frame. */
    method Connect(c: Client, lastEventId: Option<int>, at: int)
      requires c !in inbox
      modifies this
      ensures View() == Step(cfg, old(View()), at, Join(c, lastEventId))
    {
      Add(c, at);
      SendInitial(c, lastEventId, at);
    }

    method Add(c: Client, at: int)
      modifies this`clients, this`inbox, this`refreshTimer
      ensures View() == Hub.Add(cfg, old(View()), at, c)
    {
      if c !in clients { clients := clients + [c]; }
      if c !in inbox { inbox := inbox[c := []]; }
      StartRefresh(at);
    }

    method StartRefresh(at: int)
      modifies this`refreshTimer
      ensures refreshTimer == (if old(refreshTimer).Some? then old(refreshTimer) else Some(at + cfg.refresh))
    {
      if refreshTimer.Some? { return; }
      refreshTimer := Some(at + cfg.refresh);
    }

    method Remove(c: Client)
      modifies this`clients, this`refreshTimer
      ensures View() == Hub.Remove(old(View()), c)
    {
      clients := Without(clients, c);
      if clients == [] { refreshTimer := None; }
    }

    method SendInitial(c: Client, lastEventId: Option<int>, at: int)
      modifies this
      ensures View() == Hub.SendInitial(cfg, old(View()), at, c, lastEventId)
    {
      var current := cached.Some? && lastEventId.Some? && lastEventId.value >= currentSequence;
      if !current {
        var warm := cached.Some? && at - lastComputeMs < cfg.window;
        if !warm {
          RunCompute(Initial(c), at);
          return;
        }
      }
      SendFirstFrame(c);
    }

    /** The tail of `sendInitial`, run at once or when the read it waits for is over. */
    method SendFirstFrame(c: Client)
      modifies this`greeted, this`inbox, this`degraded
      ensures View() == FirstFrame(old(View()), c)
    {
      greeted := greeted + {c};
      var before := inbox;
      assert [c][..0] == [];
      if cached.Some? {
        Send(c, Snapshot(currentSequence, cached.value.presence, cached.value.generatedAt));
        assert inbox == FanOut(before, [c], Snapshot(currentSequence, cached.value.presence, cached.value.generatedAt));
        return;
      }
      Send(c, Control(currentSequence, Degraded));
      assert inbox == FanOut(before, [c], Control(currentSequence, Degraded));
      degraded := true;
    }

    method OnUpdate(at: int)
      modifies this
      ensures View() == Hub.OnUpdate(cfg, old(View()), at)
    {
      var elapsed := at - lastComputeMs;
      if elapsed >= cfg.window {
        RunCompute(Broadcast, at);
      } else if trailingTimer.None? {
        trailingTimer := Some(at + (cfg.window - elapsed));
      }
    }

    method OnTrailingTimer(at: int)
      modifies this
      ensures View() == Hub.RunCompute(old(View()).(trailing := None), at, Broadcast)
    {
      trailingTimer := None;
      RunCompute(Broadcast, at);
    }

    method OnRefreshTimer(at: int)
      modifies this
      ensures View() == OnRefresh(cfg, old(View()), at)
    {
      refreshTimer := Some(at + cfg.refresh);
      if clients == [] { return; }
      if trailingTimer.Some? { return; }
      if at - lastComputeMs < cfg.window { return; }
      RunCompute(Broadcast, at);
    }

    method RunCompute(w: Waiter, at: int)
      modifies this`computing, this`waiters, this`outstanding, this`lastComputeMs
      ensures View() == Hub.RunCompute(old(View()), at, w)
    {
      if computing {
        waiters := waiters + [w];
        return;
      }
      computing, waiters, outstanding := true, [w], outstanding + 1;
      lastComputeMs := at;
    }

    method OnControl(subject: string, epoch: int)
      modifies this`inbox, this`closing
      ensures View() == Cut(old(View()), Revoked(old(clients), subject, epoch))
    {
      var all := clients;
      for i := 0 to |all|
        invariant inbox == FanOut(old(inbox), Revoked(all[..i], subject, epoch), Control(currentSequence, Action.Disconnect))
        invariant closing == old(closing) + (set c | c in Revoked(all[..i], subject, epoch))
      {
        assert all[..i+1][..i] == all[..i];
        ghost var cut := Revoked(all[..i], subject, epoch);
        if Revokes(all[i], subject, epoch) {
          assert (cut + [all[i]])[..|cut|] == cut;
          Disconnect(all[i]);
        }
      }
      assert all[..|all|] == all;
    }

    /** The control message and the request to close that every cut ends with. */
    method Disconnect(c: Client)
      modifies this`inbox, this`closing
      ensures inbox == Deliver(old(inbox), c, Control(currentSequence, Action.Disconnect))
      ensures closing == old(closing) + {c}
    {
      Send(c, Control(currentSequence, Action.Disconnect));
      closing := closing + {c};
    }

    method CloseAll()
      modifies this`inbox, this`closing
      ensures View() == Cut(old(View()), old(clients))
    {
      var all := clients;
      for i := 0 to |all|
        invariant inbox == FanOut(old(inbox), all[..i], Control(currentSequence, Action.Disconnect))
        invariant closing == old(closing) + (set c | c in all[..i])
      {
        assert all[..i+1][..i] == all[..i];
        Disconnect(all[i]);
      }
      assert all[..|all|] == all;
    }

    method Dispose()
      modifies this`trailingTimer, this`refreshTimer
      ensures View() == old(View()).(trailing := None, refresh := None)
    {
      trailingTimer, refreshTimer := None, None;
    }

    /** The read in flight settles; its awaiters run one after the other. */
    method CompleteRead(result: Option<Presence>, at: int)
      requires outstanding > 0
      modifies this
      ensures View() == ResumeAll(Settle(old(View()), at, result), at, old(waiters))
    {
      var pending := waiters;
      SettleRead(result, at);
      ResumeWaiters(pending, at);
    }

    /** The end of `compute`, and of the flight `runCompute` shares. */
    method SettleRead(result: Option<Presence>, at: int)
      requires outstanding > 0
      modifies this`cached, this`currentSequence, this`lastComputeSucceeded, this`shots,
               this`computing, this`waiters, this`outstanding
      ensures View() == Settle(old(View()), at, result)
    {
      ghost var s := View();
      EndFlight();
      ghost var s1 := View();
      if result.Some? {
        cached := Some(Shot(result.value, at));
        currentSequence := currentSequence + 1;
        lastComputeSucceeded := true;
        shots := shots + [Shot(result.value, at)];
        assert View() == s1.(cached := cached, seq_ := currentSequence, lastComputeSucceeded := true, shots := shots);
      } else {
        lastComputeSucceeded := false;
        assert View() == s1.(lastComputeSucceeded := false);
      }
    }

    method EndFlight()
      requires outstanding > 0
      modifies this`computing, this`waiters, this`outstanding
      ensures View() == old(View()).(computing := false, waiters := [], outstanding := old(outstanding) - 1)
    {
      computing, waiters, outstanding := false, [], outstanding - 1;
    }

    method ResumeWaiters(ws: seq<Waiter>, at: int)
      modifies this
      ensures View() == ResumeAll(old(View()), at, ws)
    {
      var pending := ws;
      while pending != []
        invariant ResumeAll(View(), at, pending) == ResumeAll(old(View()), at, ws)
        decreases |pending|
      {
        if pending[0].Broadcast? {
          FinishBroadcast(at);
        } else {
          SendFirstFrame(pending[0].client);
        }
        pending := pending[1..];
      }
    }

    /** `computeAndBroadcast` after its read. */
    method FinishBroadcast(at: int)
      modifies this
      ensures View() == AfterCompute(old(View()), at)
    {
      if lastComputeSucceeded {
        var recovered := false;
        if degraded {
          degraded := false;
          BroadcastControl(Recovered);
          recovered := true;
        }
        BroadcastCurrent(recovered, at);
      } else if !degraded {
        degraded := true;
        BroadcastControl(Degraded);
      }
    }

    method BroadcastControl(action: Action)
      modifies this`inbox, this`news
      ensures View() == Hub.BroadcastControl(old(View()), action)
    {
      SendAll(Control(currentSequence, action));
      news := news + [Told(action, currentSequence)];
    }

    method BroadcastCurrent(force: bool, at: int)
      modifies this`lastBroadcastSeq, this`lastBroadcastPayload, this`lastBroadcastAtMs, this`inbox, this`news, this`agreed
      ensures View() == Hub.BroadcastCurrent(old(View()), at, force)
    {
      if cached.None? || currentSequence == lastBroadcastSeq { return; }
      var shot := cached.value;
      if !force && lastBroadcastPayload == Some(shot.presence) && at - lastBroadcastAtMs < RESEND_FLOOR { return; }
      ShowAll(shot, at);
    }

    method ShowAll(shot: Shot, at: int)
      modifies this`lastBroadcastSeq, this`lastBroadcastPayload, this`lastBroadcastAtMs, this`inbox, this`news, this`agreed
      ensures
        View() == Post(old(View()), old(clients), Snapshot(old(currentSequence), shot.presence, shot.generatedAt))
        .(lastBroadcastSeq := old(currentSequence), lastPayload := Some(shot.presence), lastBroadcastAt := at,
          news := old(news) + [Shown(old(currentSequence), old(clients))],
          agreed := set c | c in old(clients) && c in old(greeted))
    {
      NoteShown(shot.presence, at);
      RecordShown();
      ghost var s := View();
      SendAll(Snapshot(currentSequence, shot.presence, shot.generatedAt));
      assert View() == s.(inbox := inbox);
    }

    /** The bookkeeping of a snapshot broadcast, which per-client first frames leave alone. */
    method NoteShown(presence: Presence, at: int)
      modifies this`lastBroadcastSeq, this`lastBroadcastPayload, this`lastBroadcastAtMs
      ensures
        View() == old(View())
        .(lastBroadcastSeq := old(currentSequence), lastPayload := Some(presence), lastBroadcastAt := at)
    {
      lastBroadcastSeq := currentSequence;
      lastBroadcastPayload := Some(presence);
      lastBroadcastAtMs := at;
    }

    ghost method RecordShown()
      modifies this`news, this`agreed
      ensures
        View() == old(View())
        .(news := old(news) + [Shown(currentSequence, clients)], agreed := set c | c in clients && c in greeted)
    {
      news := news + [Shown(currentSequence, clients)];
      agreed := set c | c in clients && c in greeted;
    }
  }
}
