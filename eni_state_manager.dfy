/**
 * The ENI state manager: it decides, for each network device the host reports
 * by MAC address, whether the device is an attachment the agent manages whose
 * "attached" state has not yet been sent, and if so marks the attachment
 * attached and emits a task state change carrying it.
 */
module EniStateManager {
  import opened Wrappers
  import opened Enumeration

  datatype ENIAttachmentStatus = ENIAttachmentNone | ENIAttached | ENIDetached

  /** An ENI attachment as the agent state holds it; `sent` is what `IsSent` reads. */
  datatype ENIAttachment = ENIAttachment(
    taskArn: string,
    attachmentArn: string,
    macAddress: string,
    status: ENIAttachmentStatus,
    sent: bool)

  /** A task state change carrying an attachment, as put on the event channel. */
  datatype TaskStateChange = TaskStateChange(taskArn: string, attachment: ENIAttachment)

  /** A network link reported by the host; a link without a hardware address has MAC "". */
  datatype Link = Link(hardwareAddr: string)

  /** The agent state's attachments, keyed by MAC address. */
  type AgentState = map<string, ENIAttachment>

  /** The filter's verdict: a managed attachment whose state change is still to be sent. */
  predicate ShouldBeSent(state: AgentState, mac: string)
  {
    mac != "" && mac in state && !state[mac].sent
  }

  /** A device the agent state does not know; it is remembered as unmanaged. */
  predicate Unmanaged(state: AgentState, mac: string)
  {
    mac != "" && mac !in state
  }

  /** The event emitted for an eligible MAC: its attachment, marked attached. */
  function AttachmentEvent(state: AgentState, mac: string): TaskStateChange
    requires mac in state
  {
    TaskStateChange(state[mac].taskArn, state[mac].(status := ENIAttached))
  }

  /** The events emitted by handling `macs` in order, starting from `state`. */
  function EventsFor(state: AgentState, macs: seq<string>): seq<TaskStateChange>
  {
    if macs == [] then []
    else
      var mac := macs[|macs| - 1];
      EventsFor(state, macs[..|macs| - 1])
        + (if ShouldBeSent(state, mac) then [AttachmentEvent(state, mac)] else [])
  }

  /** The agent state after handling the MACs in `macs`: eligible attachments are marked attached. */
  function StateAfter(state: AgentState, macs: set<string>): (s': AgentState)
    ensures s'.Keys == state.Keys
  {
    map mac | mac in state ::
      if mac in macs && ShouldBeSent(state, mac) then state[mac].(status := ENIAttached) else state[mac]
  }

  /** The unmanaged-device set after handling the MACs in `macs`. */
  function UnmanagedAfter(unmanaged: set<string>, state: AgentState, macs: set<string>): set<string>
  {
    unmanaged + (set mac | mac in macs && Unmanaged(state, mac))
  }

  /**
   * Handling a MAC changes only attachment statuses, so no MAC's eligibility
   * and no event changes: handling the same MACs again decides the same way.
   */
  lemma StateAfterKeepsDecisions(state: AgentState, macs: set<string>, mac: string)
    ensures ShouldBeSent(StateAfter(state, macs), mac) == ShouldBeSent(state, mac)
    ensures Unmanaged(StateAfter(state, macs), mac) == Unmanaged(state, mac)
    ensures mac in state ==> AttachmentEvent(StateAfter(state, macs), mac) == AttachmentEvent(state, mac)
  {
  }

  lemma StateAfterCompose(state: AgentState, done: set<string>, mac: string)
    ensures StateAfter(StateAfter(state, done), {mac}) == StateAfter(state, done + {mac})
  {
    var s1 := StateAfter(state, done);
    forall m | m in state
      ensures StateAfter(s1, {mac})[m] == StateAfter(state, done + {mac})[m]
    {
      StateAfterKeepsDecisions(state, done, m);
    }
  }

  /** Only eligible MACs produce events, each its own attachment's event. */
  lemma {:induction false} EventsForMembership(state: AgentState, macs: seq<string>, e: TaskStateChange)
    ensures (e in EventsFor(state, macs))
              <==> (exists mac :: mac in macs && ShouldBeSent(state, mac) && e == AttachmentEvent(state, mac))
  {
    if macs != [] {
      var front := macs[..|macs| - 1];
      EventsForMembership(state, front, e);
      assert macs == front + [macs[|macs| - 1]];
      assert forall mac :: mac in macs <==> mac in front || mac == macs[|macs| - 1];
    }
  }

  function EligibleIn(state: AgentState, macs: seq<string>): set<string>
  {
    set mac | mac in macs && ShouldBeSent(state, mac)
  }

  /**
   * Over a list of distinct MACs, exactly one event is emitted per eligible MAC
   * (there is no deduplication beyond the distinctness of the list).
   */
  lemma {:induction false} EventsForCount(state: AgentState, macs: seq<string>)
    requires forall i, j :: 0 <= i < j < |macs| ==> macs[i] != macs[j]
    ensures |EventsFor(state, macs)| == |EligibleIn(state, macs)|
  {
    if macs != [] {
      var front := macs[..|macs| - 1];
      var last := macs[|macs| - 1];
      EventsForCount(state, front);
      assert last !in front;
      assert macs == front + [last];
      if ShouldBeSent(state, last) {
        assert EligibleIn(state, macs) == EligibleIn(state, front) + {last};
      } else {
        assert EligibleIn(state, macs) == EligibleIn(state, front);
      }
    }
  }

  /**
   * Handling an eligible MAC twice emits two events: handling does not set the
   * sent flag, so the attachment is still eligible the second time.
   */
  lemma HandleTwiceEmitsTwice(state: AgentState, mac: string)
    requires ShouldBeSent(state, mac)
    ensures ShouldBeSent(StateAfter(state, {mac}), mac)
    ensures EventsFor(state, [mac]) + EventsFor(StateAfter(state, {mac}), [mac])
            == [AttachmentEvent(state, mac), AttachmentEvent(state, mac)]
  {
    StateAfterKeepsDecisions(state, {mac}, mac);
    assert [mac][..0] == [];
  }

  /** Handling `macs + [mac]` emits the events of `macs`, then those of `mac`. */
  lemma EventsForAppend(state: AgentState, macs: seq<string>, mac: string)
    ensures EventsFor(state, macs + [mac]) == EventsFor(state, macs) + EventsFor(state, [mac])
  {
    assert (macs + [mac])[..|macs|] == macs;
    assert [mac][..0] == [];
  }

  /**
   * Handling one more MAC after the MACs of `done` gives the state, events and
   * unmanaged set of handling `done + {mac}` from the start.
   */
  lemma HandleStep(state: AgentState, done: set<string>, unmanaged: set<string>, mac: string)
    ensures StateAfter(StateAfter(state, done), {mac}) == StateAfter(state, done + {mac})
    ensures EventsFor(StateAfter(state, done), [mac]) == EventsFor(state, [mac])
    ensures UnmanagedAfter(UnmanagedAfter(unmanaged, state, done), StateAfter(state, done), {mac})
            == UnmanagedAfter(unmanaged, state, done + {mac})
  {
    StateAfterCompose(state, done, mac);
    StateAfterKeepsDecisions(state, done, mac);
    assert [mac][..0] == [];
  }

  /** The MACs of the links, in order. */
  function Macs(links: seq<Link>): (macs: seq<string>)
    ensures |macs| == |links| && forall i :: 0 <= i < |links| ==> macs[i] == links[i].hardwareAddr
  {
    if links == [] then [] else Macs(links[..|links| - 1]) + [links[|links| - 1].hardwareAddr]
  }

  function Elements(macs: seq<string>): set<string>
  {
    set mac | mac in macs
  }

  /**
   * Handling the link MAC `macs[k]` after `macs[..k]` gives the state, events
   * and unmanaged set of handling `macs[..k + 1]` from the start.
   */
  lemma HandlePrefixStep(state: AgentState, unmanaged: set<string>, macs: seq<string>, k: nat)
    requires k < |macs|
    ensures var done := Elements(macs[..k]);
            && StateAfter(StateAfter(state, done), {macs[k]}) == StateAfter(state, Elements(macs[..k + 1]))
            && EventsFor(state, macs[..k]) + EventsFor(StateAfter(state, done), [macs[k]])
               == EventsFor(state, macs[..k + 1])
            && UnmanagedAfter(UnmanagedAfter(unmanaged, state, done), StateAfter(state, done), {macs[k]})
               == UnmanagedAfter(unmanaged, state, Elements(macs[..k + 1]))
  {
    assert macs[..k + 1] == macs[..k] + [macs[k]];
    assert Elements(macs[..k + 1]) == Elements(macs[..k]) + {macs[k]};
    HandleStep(state, Elements(macs[..k]), unmanaged, macs[k]);
    EventsForAppend(state, macs[..k], macs[k]);
  }

  /**
   * `stateManager`: the agent state's attachments (updated in place), the cache
   * of devices known not to be managed, and the events sent on the channel.
   */
  class StateManager {
    var agentState: AgentState
    var unmanagedDevices: set<string>
    var events: seq<TaskStateChange>

    /** `New`: no unmanaged device seen and no event sent yet. */
    constructor (state: AgentState)
      ensures agentState == state && unmanagedDevices == {} && events == []
    {
      agentState := state;
      unmanagedDevices := {};
      events := [];
    }

    /**
     * `ENIStateChangeShouldBeSent`: (nil, false) for an empty MAC or an unknown
     * device (which is remembered as unmanaged), (eni, false) for an attachment
     * already sent, (eni, true) otherwise.
     */
    method ENIStateChangeShouldBeSent(macAddress: string) returns (eni: Option<ENIAttachment>, ok: bool)
      modifies this`unmanagedDevices
      ensures ok == ShouldBeSent(agentState, macAddress)
      ensures eni == if macAddress != "" && macAddress in agentState then Some(agentState[macAddress]) else None
      ensures unmanagedDevices == UnmanagedAfter(old(unmanagedDevices), agentState, {macAddress})
    {
      if macAddress == "" {
        return None, false;
      }
      if macAddress !in agentState {
        if macAddress !in unmanagedDevices {
          unmanagedDevices := unmanagedDevices + {macAddress};
        }
        return None, false;
      }
      var attachment := agentState[macAddress];
      if attachment.sent {
        return Some(attachment), false;
      }
      return Some(attachment), true;
    }

    /**
     * `HandleENIEvent`: when the filter says so, marks the attachment attached
     * and emits one event carrying it; otherwise no attachment changes and
     * nothing is emitted.
     */
    method HandleENIEvent(mac: string)
      modifies this`unmanagedDevices, this`agentState, this`events
      ensures agentState == StateAfter(old(agentState), {mac})
      ensures events == old(events) + EventsFor(old(agentState), [mac])
      ensures unmanagedDevices == UnmanagedAfter(old(unmanagedDevices), old(agentState), {mac})
    {
      assert [mac][..0] == [];
      var eni, ok := ENIStateChangeShouldBeSent(mac);
      if ok {
        var attached := eni.value.(status := ENIAttached);
        agentState := agentState[mac := attached];
        events := events + [TaskStateChange(attached.taskArn, attached)];
      }
      assert agentState == StateAfter(old(agentState), {mac});
    }

    /** `Init`: handles the MAC of each link, in the order the links are listed. */
    method Init(links: seq<Link>)
      modifies this`unmanagedDevices, this`agentState, this`events
      ensures agentState == StateAfter(old(agentState), Elements(Macs(links)))
      ensures events == old(events) + EventsFor(old(agentState), Macs(links))
      ensures unmanagedDevices == UnmanagedAfter(old(unmanagedDevices), old(agentState), Elements(Macs(links)))
    {
      ghost var macs := Macs(links);
      for k := 0 to |links|
        invariant agentState == StateAfter(old(agentState), Elements(macs[..k]))
        invariant events == old(events) + EventsFor(old(agentState), macs[..k])
        invariant unmanagedDevices == UnmanagedAfter(old(unmanagedDevices), old(agentState), Elements(macs[..k]))
      {
        var macAddress := links[k].hardwareAddr;
        HandlePrefixStep(old(agentState), old(unmanagedDevices), macs, k);
        HandleENIEvent(macAddress);
      }
      assert macs[..|links|] == macs;
    }

    /** `Reconcile`: handles each MAC of the current device map once, in map order. */
    method Reconcile(currentState: map<string, string>)
      modifies this`unmanagedDevices, this`agentState, this`events
      ensures agentState == StateAfter(old(agentState), currentState.Keys)
      ensures exists order :: Enumerates(order, currentState.Keys)
                              && events == old(events) + EventsFor(old(agentState), order)
      ensures unmanagedDevices == UnmanagedAfter(old(unmanagedDevices), old(agentState), currentState.Keys)
    {
      var pending := currentState.Keys;
      ghost var done: set<string> := {};
      ghost var order: seq<string> := [];
      while pending != {}
        invariant done !! pending && done + pending == currentState.Keys
        invariant Enumerates(order, done)
        invariant agentState == StateAfter(old(agentState), done)
        invariant events == old(events) + EventsFor(old(agentState), order)
        invariant unmanagedDevices == UnmanagedAfter(old(unmanagedDevices), old(agentState), done)
        decreases pending
      {
        var mac :| mac in pending;
        HandleStep(old(agentState), done, old(unmanagedDevices), mac);
        EventsForAppend(old(agentState), order, mac);
        EnumeratesAppend(order, done, mac);
        HandleENIEvent(mac);
        pending := pending - {mac};
        done := done + {mac};
        order := order + [mac];
      }
      assert done == currentState.Keys;
    }
  }

  /**
   * `Reconcile` emits exactly one event per eligible MAC of the device map
   * (whatever order the map is walked in).
   */
  lemma ReconcileEventCount(state: AgentState, currentState: map<string, string>, order: seq<string>)
    requires Enumerates(order, currentState.Keys)
    ensures |EventsFor(state, order)| == |set mac | mac in currentState && ShouldBeSent(state, mac)|
  {
    EventsForCount(state, order);
    assert EligibleIn(state, order) == set mac | mac in currentState && ShouldBeSent(state, mac);
  }
}
