/** The UDP NAT: a dictionary of flows updated in place, and the passes of its reaper. */
module UdpEngine {
  import opened Bytes
  import opened Packets
  import opened UdpFlows

  class UdpFlow {
    const key: Key
    var lastUsed: real

    constructor (key: Key, now: real)
      ensures this.key == key && lastUsed == now
    {
      this.key, lastUsed := key, now;
    }
  }

  class UdpNat {
    var flows: map<Key, UdpFlow>
    var reaper: Option<real>

    ghost var opening: Option<Key>
    ghost var now: real

    ghost function View(): Table
      reads this, flows.Values
    {
      Table(now, map k | k in flows :: flows[k].lastUsed, reaper, opening)
    }

    ghost predicate Valid()
      reads this, flows.Values
    {
      forall k :: k in flows ==> flows[k].key == k
    }

    constructor ()
      ensures Valid() && View() == START
    {
      flows, reaper, opening, now := map[], None, None, 0.0;
    }

    /** Up to the wait for a new flow's socket. */
    method HandleChipDatagram(key: Key, allowed: bool, sent: bool, time: real)
      requires Valid() && opening == None && time == now
      modifies this`flows, this`opening, flows.Values
      ensures Valid() && View() == Step(old(View()), FromChip(key, allowed, sent))
      ensures fresh(flows.Values - old(flows.Values))
    {
      if key in flows {
        flows[key].lastUsed := time;
        if !sent { ReapFlow(key); }
      } else if allowed {
        opening := Some(key);
      }
    }

    /** The rest of it, with the socket open or refused. */
    method FlowOpened(key: Key, worked: bool, sent: bool, time: real)
      requires Valid() && opening == Some(key) && time == now
      modifies this
      ensures Valid() && View() == Step(old(View()), Opened(worked, sent))
      ensures fresh(flows.Values - old(flows.Values))
    {
      opening := None;
      ghost var u := View();
      if !worked { return; }
      Register(key, time);
      if !sent {
        ReapFlow(key);
        assert u.flows[key := now] - {key} == u.flows - {key};
      }
    }

    method Register(key: Key, time: real)
      requires Valid() && time == now
      modifies this`flows, this`reaper
      ensures Valid() && fresh(flows.Values - old(flows.Values))
      ensures var t := old(View());
              View() == t.(flows := t.flows[key := now],
                           wake := if t.wake.None? then Some(now + PASS_EVERY) else t.wake)
    {
      var flow := new UdpFlow(key, time);
      flows := flows[key := flow];
      if reaper.None? { reaper := Some(time + PASS_EVERY); }
    }

    /** The datagram for the chip, if the flow is still there. */
    method OnHostDatagram(key: Key, data: bytes, time: real) returns (reply: Option<Udp>)
      requires Valid() && time == now
      modifies flows.Values
      ensures Valid() && View() == Step(old(View()), FromHost(key))
      ensures reply == if key in flows then Some(Reply(key, data)) else None
    {
      if key !in flows { return None; }
      flows[key].lastUsed := time;
      reply := Some(Udp(key.dstPort, key.chipPort, 0, 0, data));
    }

    method ReapFlow(key: Key)
      requires Valid()
      modifies this`flows
      ensures Valid() && flows == old(flows) - {key}
      ensures View() == old(View()).(flows := old(View()).flows - {key})
    {
      flows := flows - {key};
    }

    /** The keys to drop, and then dropping them one by one. */
    method ReaperPass(time: real)
      requires Valid() && time == now && reaper.Some?
      modifies this`flows, this`reaper
      ensures Valid() && View() == Step(old(View()), Pass)
    {
      var cutoff := time - IDLE_TIMEOUT;
      var stale := set k | k in flows && flows[k].lastUsed < cutoff;
      var left := stale;
      while left != {}
        invariant Valid() && left <= stale && flows == old(flows) - (stale - left)
        decreases left
      {
        var k :| k in left;
        ReapFlow(k);
        left := left - {k};
      }
      assert View().flows == Survivors(old(View()));
      assert flows == map[] <==> View().flows == map[] by {
        assert flows.Keys == View().flows.Keys;
      }
      reaper := if flows == map[] then None else Some(time + PASS_EVERY);
    }

    method Shutdown()
      requires Valid()
      modifies this`flows, this`reaper
      ensures Valid() && View() == Step(old(View()), Stop)
    {
      var left := flows.Keys;
      while left != {}
        invariant Valid() && flows.Keys == left && opening == old(opening)
        decreases left
      {
        var k :| k in left;
        ReapFlow(k);
        left := left - {k};
      }
      reaper := None;
    }
  }
}
