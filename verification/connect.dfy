/**
 Connecting to an instrument, as the RF generator "Connect" dialog and the
 recent-instrument menu items do it: the outcome, the error popups shown and
 who ends up owning the transport. Creating the transport, probing it and
 creating the driver are foreign calls; their results are parameters.
 */
module Connect {
  import opened Wrappers

  type TransportId = nat
  type InstrumentId = nat

  /** A visible effect of a connection attempt. */
  datatype Event =
    | ErrorPopup(title: string)
    | DeleteTransport(transport: TransportId)
    | AddToSession(instrument: InstrumentId, nickname: string, owned: TransportId)

  const TransportError: string := "Transport error"
  const ConnectionError: string := "Connection error"
  const DriverError: string := "Driver error"

  function NumPopups(trace: seq<Event>): nat
  {
    if |trace| == 0 then 0
    else NumPopups(trace[..|trace| - 1]) + (if trace[|trace| - 1].ErrorPopup? then 1 else 0)
  }

  function NumDeletes(trace: seq<Event>, t: TransportId): nat
  {
    if |trace| == 0 then 0
    else NumDeletes(trace[..|trace| - 1], t) + (if trace[|trace| - 1] == DeleteTransport(t) then 1 else 0)
  }

  function NumAdds(trace: seq<Event>): nat
  {
    if |trace| == 0 then 0
    else NumAdds(trace[..|trace| - 1]) + (if trace[|trace| - 1].AddToSession? then 1 else 0)
  }

  /** The transport ends up with the session: some added instrument owns it. */
  predicate HandedOver(trace: seq<Event>, t: TransportId)
  {
    exists k :: 0 <= k < |trace| && trace[k].AddToSession? && trace[k].owned == t
  }

  /** The counts over a two-event trace, event by event. */
  lemma TwoEvents(a: Event, b: Event)
    ensures NumPopups([a, b]) == (if a.ErrorPopup? then 1 else 0) + (if b.ErrorPopup? then 1 else 0)
    ensures NumAdds([a, b]) == (if a.AddToSession? then 1 else 0) + (if b.AddToSession? then 1 else 0)
    ensures forall t :: NumDeletes([a, b], t) == (if a == DeleteTransport(t) then 1 else 0) + (if b == DeleteTransport(t) then 1 else 0)
  {
    var s2 := [a, b];
    var s1 := [a];
    assert s2[..|s2| - 1] == s1 && s2[|s2| - 1] == b;
    assert s1[..|s1| - 1] == [] && s1[|s1| - 1] == a;
    assert NumPopups(s1) == NumPopups([]) + (if a.ErrorPopup? then 1 else 0);
    assert NumAdds(s1) == NumAdds([]) + (if a.AddToSession? then 1 else 0);
    forall t ensures NumDeletes(s2, t) == (if a == DeleteTransport(t) then 1 else 0) + (if b == DeleteTransport(t) then 1 else 0) {
      assert NumDeletes(s1, t) == NumDeletes([], t) + (if a == DeleteTransport(t) then 1 else 0);
    }
  }

  /** `DoConnect`: the attempt's success and the effects it has, in order. */
  datatype Attempt = Attempt(ok: bool, trace: seq<Event>)

  /**
   The RF generator dialog's connect: no transport, a transport that did not
   connect, and a driver that could not be created each show one popup and fail;
   the last two delete the transport. Otherwise the generator takes the
   dialog's nickname and is added to the session.
   */
  function DoConnect(nickname: string, transport: Option<TransportId>, isConnected: bool, driver: Option<InstrumentId>)
    : (r: Attempt)
    ensures NumPopups(r.trace) == (if r.ok then 0 else 1)
    ensures r.ok <==> transport.Some? && isConnected && driver.Some?
    ensures NumAdds(r.trace) == (if r.ok then 1 else 0)
    ensures r.ok ==> r.trace == [AddToSession(driver.value, nickname, transport.value)]
    ensures transport.None? ==> r.trace == [ErrorPopup(TransportError)]
    ensures transport.Some? && !isConnected ==> ErrorPopup(ConnectionError) in r.trace
    ensures transport.Some? && isConnected && driver.None? ==> ErrorPopup(DriverError) in r.trace
  {
    match transport
    case None => Attempt(false, [ErrorPopup(TransportError)])
    case Some(t) =>
      if !isConnected then
        var trace := [DeleteTransport(t), ErrorPopup(ConnectionError)];
        TwoEvents(trace[0], trace[1]);
        Attempt(false, trace)
      else match driver
        case None =>
          var trace := [ErrorPopup(DriverError), DeleteTransport(t)];
          TwoEvents(trace[0], trace[1]);
          Attempt(false, trace)
        case Some(g) => Attempt(true, [AddToSession(g, nickname, t)])
  }

  /**
   A created transport is never leaked and never freed twice: it is deleted
   exactly once on failure and handed to the session, undeleted, on success.
   */
  lemma {:induction false} DoConnectOwnership(
    nickname: string, t: TransportId, isConnected: bool, driver: Option<InstrumentId>)
    ensures
      var r := DoConnect(nickname, Some(t), isConnected, driver);
      && (r.ok ==> NumDeletes(r.trace, t) == 0 && HandedOver(r.trace, t))
      && (!r.ok ==> NumDeletes(r.trace, t) == 1 && !HandedOver(r.trace, t))
  {
    var r := DoConnect(nickname, Some(t), isConnected, driver);
    if r.ok {
      assert r.trace[0].AddToSession? && r.trace[0].owned == t;
    } else {
      TwoEvents(r.trace[0], r.trace[1]);
      assert forall k :: 0 <= k < 2 ==> !r.trace[k].AddToSession?;
    }
  }

  /**
   A recent-instrument menu item: without a transport nothing happens at all;
   a failed driver shows one popup and deletes the transport; otherwise the
   instrument takes the nickname from the connection string and is added.
   */
  function ConnectRecent(nick: string, transport: Option<TransportId>, driver: Option<InstrumentId>): (r: Attempt)
    ensures r.ok <==> transport.Some? && driver.Some?
    ensures transport.None? ==> r.trace == []
    ensures NumAdds(r.trace) == (if r.ok then 1 else 0)
    ensures r.ok ==> r.trace == [AddToSession(driver.value, nick, transport.value)]
    ensures transport.Some? && driver.None? ==> NumPopups(r.trace) == 1
  {
    match transport
    case None => Attempt(false, [])
    case Some(t) =>
      match driver
      case None =>
        var trace := [ErrorPopup(DriverError), DeleteTransport(t)];
        TwoEvents(trace[0], trace[1]);
        Attempt(false, trace)
      case Some(g) => Attempt(true, [AddToSession(g, nick, t)])
  }

  /** The menu path keeps the same ownership discipline as the dialog. */
  lemma {:induction false} ConnectRecentOwnership(nick: string, t: TransportId, driver: Option<InstrumentId>)
    ensures
      var r := ConnectRecent(nick, Some(t), driver);
      && (r.ok ==> NumDeletes(r.trace, t) == 0 && HandedOver(r.trace, t))
      && (!r.ok ==> NumDeletes(r.trace, t) == 1 && !HandedOver(r.trace, t))
  {
    var r := ConnectRecent(nick, Some(t), driver);
    if r.ok {
      assert r.trace[0].AddToSession? && r.trace[0].owned == t;
    } else {
      TwoEvents(r.trace[0], r.trace[1]);
      assert forall k :: 0 <= k < 2 ==> !r.trace[k].AddToSession?;
    }
  }

  /** Unlike the dialog, a menu item whose transport cannot be made fails silently. */
  lemma MenuSilentDialogNot(nick: string, isConnected: bool, driver: Option<InstrumentId>)
    ensures NumPopups(ConnectRecent(nick, None, driver).trace) == 0
    ensures NumPopups(DoConnect(nick, None, isConnected, driver).trace) == 1
  {
  }
}
