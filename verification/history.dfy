/**
 The waveform history kept by the history manager: after each acquisition a
 history point (a timestamp, a pinned flag and a snapshot of every stream of
 every scope) is appended, and the list is trimmed back towards `maxDepth`
 by evicting the earliest point that is neither pinned nor marked.
 */
module History {
  import opened Wrappers
  import opened TimePoints
  import Session

  type ScopeId = nat

  /** A captured waveform; `buffer` stands for the identity of its sample storage. */
  datatype Waveform = Waveform(startTimestamp: int, startFemtoseconds: int, buffer: nat)

  /** A scope channel: the data currently attached to each of its streams (`None` = null). */
  datatype Channel = Channel(streams: seq<Option<Waveform>>)

  datatype Scope = Scope(id: ScopeId, channels: seq<Channel>)

  /** A stream of one scope: channel number and stream number within the channel. */
  datatype StreamKey = StreamKey(channel: nat, stream: nat)

  type WaveformHistory = map<StreamKey, Option<Waveform>>

  datatype HistoryPoint = HistoryPoint(
    time: TimePoint,
    pinned: bool,
    nickname: string,
    history: map<ScopeId, WaveformHistory>)

  datatype HistoryManager = HistoryManager(history: seq<HistoryPoint>, maxDepth: int)

  const DefaultMaxDepth: int := 10

  /** A fresh manager: empty history, depth 10. */
  function NewHistoryManager(): (r: HistoryManager)
    ensures r.history == [] && r.maxDepth == DefaultMaxDepth
  {
    HistoryManager([], DefaultMaxDepth)
  }

  /** `m_maxDepth` compared as `size_t`: a negative depth wraps to a huge bound. */
  function DepthLimit(maxDepth: int): (n: nat)
    ensures maxDepth >= 0 ==> n == maxDepth
    ensures -0x8000_0000_0000_0000 <= maxDepth < 0 ==> n >= 0x8000_0000_0000_0000
  {
    if maxDepth >= 0 then maxDepth else maxDepth % 0x1_0000_0000_0000_0000
  }

  function StartTime(w: Waveform): TimePoint
  {
    TimePoint(w.startTimestamp, w.startFemtoseconds)
  }

  ////////////////////////////////////////////////////////////////////////////
  // Finding the timestamp of the new point

  /** Start time of the first stream holding data. */
  function FirstStreamTime(streams: seq<Option<Waveform>>): (r: Option<TimePoint>)
    ensures r.None? <==> forall j :: 0 <= j < |streams| ==> streams[j].None?
    ensures r.Some? ==>
      exists j :: 0 <= j < |streams| && streams[j].Some?
        && StartTime(streams[j].value) == r.value
        && forall k :: 0 <= k < j ==> streams[k].None?
    decreases |streams|
  {
    if |streams| == 0 then None
    else if streams[0].Some? then Some(StartTime(streams[0].value))
    else
      var r := FirstStreamTime(streams[1..]);
      assert forall j :: 1 <= j < |streams| ==> streams[j] == streams[1..][j - 1];
      r
  }

  /** Every channel of every scope, scope by scope, in channel order. */
  function AllChannels(scopes: seq<Scope>): seq<Channel>
    decreases |scopes|
  {
    if |scopes| == 0 then []
    else AllChannels(scopes[..|scopes| - 1]) + scopes[|scopes| - 1].channels
  }

  /** The first-stream time of the LAST channel that holds any data. */
  function LastChannelTime(chans: seq<Channel>): Option<TimePoint>
    decreases |chans|
  {
    if |chans| == 0 then None
    else
      var t := FirstStreamTime(chans[|chans| - 1].streams);
      if t.Some? then t
      else LastChannelTime(chans[..|chans| - 1])
  }

  /** No channel has data, or the result is the time of a channel after which none has data. */
  lemma {:induction false} LastChannelTimeSpec(chans: seq<Channel>)
    ensures LastChannelTime(chans).None? <==> forall k :: 0 <= k < |chans| ==> FirstStreamTime(chans[k].streams).None?
    ensures LastChannelTime(chans).Some? ==>
      exists k :: 0 <= k < |chans|
        && FirstStreamTime(chans[k].streams) == LastChannelTime(chans)
        && forall k' :: k < k' < |chans| ==> FirstStreamTime(chans[k'].streams).None?
    decreases |chans|
  {
    if |chans| > 0 {
      var last := |chans| - 1;
      var init := chans[..last];
      assert forall k :: 0 <= k < last ==> init[k] == chans[k];
      LastChannelTimeSpec(init);
      if FirstStreamTime(chans[last].streams).Some? {
        assert FirstStreamTime(chans[last].streams) == LastChannelTime(chans);
      } else {
        assert LastChannelTime(chans) == LastChannelTime(init);
        if LastChannelTime(init).Some? {
          var k :| 0 <= k < |init| && FirstStreamTime(init[k].streams) == LastChannelTime(init)
            && forall k' :: k < k' < |init| ==> FirstStreamTime(init[k'].streams).None?;
          assert FirstStreamTime(chans[k].streams) == LastChannelTime(chans);
          assert forall k' :: k < k' < |chans| ==> FirstStreamTime(chans[k'].streams).None?;
        }
      }
    }
  }

  /**
   The timestamp the first pass of AddHistory ends up with. Its `break` leaves
   only the stream loop, so every later channel with data overwrites it.
   */
  function FoundTimestamp(scopes: seq<Scope>): Option<TimePoint>
  {
    LastChannelTime(AllChannels(scopes))
  }

  function AsOption(found: bool, tp: TimePoint): Option<TimePoint>
  {
    if found then Some(tp) else None
  }

  /** The first pass of AddHistory, loop for loop. */
  method FindTimestamp(scopes: seq<Scope>) returns (found: bool, tp: TimePoint)
    ensures AsOption(found, tp) == FoundTimestamp(scopes)
    ensures !found ==> tp == Zero
  {
    found := false;
    tp := Zero;
    var si := 0;
    while si < |scopes|
      invariant 0 <= si <= |scopes|
      invariant AsOption(found, tp) == LastChannelTime(AllChannels(scopes[..si]))
      invariant !found ==> tp == Zero
    {
      var scope := scopes[si];
      var prefix := AllChannels(scopes[..si]);
      assert prefix + scope.channels[..0] == prefix;
      var ci := 0;
      while ci < |scope.channels|
        invariant 0 <= ci <= |scope.channels|
        invariant AsOption(found, tp) == LastChannelTime(prefix + scope.channels[..ci])
        invariant !found ==> tp == Zero
      {
        var chan := scope.channels[ci];
        var done := prefix + scope.channels[..ci];
        var j := 0;
        while j < |chan.streams|
          invariant 0 <= j <= |chan.streams|
          invariant FirstStreamTime(chan.streams) == FirstStreamTime(chan.streams[j..])
          invariant AsOption(found, tp) == LastChannelTime(done)
          invariant !found ==> tp == Zero
        {
          if chan.streams[j].Some? {
            var wfm := chan.streams[j].value;
            tp := TimePoint(wfm.startTimestamp, wfm.startFemtoseconds);
            found := true;
            break;
          }
          assert chan.streams[j..][1..] == chan.streams[j + 1..];
          j := j + 1;
        }
        assert (done + [chan])[..|done|] == done;
        assert prefix + scope.channels[..ci + 1] == done + [chan];
        ci := ci + 1;
      }
      assert scope.channels[..|scope.channels|] == scope.channels;
      assert scopes[..si + 1][..si] == scopes[..si];
      si := si + 1;
    }
    assert scopes[..|scopes|] == scopes;
  }

  /** The timestamp the first pass was evidently meant to find: the first stream with data overall. */
  function FirstTimestamp(scopes: seq<Scope>): Option<TimePoint>
  {
    FirstChannelTime(AllChannels(scopes))
  }

  function FirstChannelTime(chans: seq<Channel>): Option<TimePoint>
    decreases |chans|
  {
    if |chans| == 0 then None
    else if FirstStreamTime(chans[0].streams).Some? then FirstStreamTime(chans[0].streams)
    else FirstChannelTime(chans[1..])
  }

  /** No channel has data, or the result is the time of a channel before which none has data. */
  lemma {:induction false} FirstChannelTimeSpec(chans: seq<Channel>)
    ensures FirstChannelTime(chans).None? <==> forall k :: 0 <= k < |chans| ==> FirstStreamTime(chans[k].streams).None?
    ensures FirstChannelTime(chans).Some? ==>
      exists k :: 0 <= k < |chans|
        && FirstStreamTime(chans[k].streams) == FirstChannelTime(chans)
        && forall k' :: 0 <= k' < k ==> FirstStreamTime(chans[k'].streams).None?
    decreases |chans|
  {
    if |chans| > 0 {
      var rest := chans[1..];
      assert forall k :: 1 <= k < |chans| ==> chans[k] == rest[k - 1];
      FirstChannelTimeSpec(rest);
      if FirstStreamTime(chans[0].streams).None? && FirstChannelTime(rest).Some? {
        var k :| 0 <= k < |rest| && FirstStreamTime(rest[k].streams) == FirstChannelTime(rest)
          && forall k' :: 0 <= k' < k ==> FirstStreamTime(rest[k'].streams).None?;
        assert FirstStreamTime(chans[k + 1].streams) == FirstChannelTime(chans);
      }
    }
  }

  /** Some stream of some scope holds a waveform. */
  predicate HasWaveform(scopes: seq<Scope>)
  {
    exists i, ci, j :: 0 <= i < |scopes| && 0 <= ci < |scopes[i].channels|
      && 0 <= j < |scopes[i].channels[ci].streams| && scopes[i].channels[ci].streams[j].Some?
  }

  /** The channels visited are exactly those of the scopes passed in. */
  lemma {:induction false} AllChannelsMembers(scopes: seq<Scope>)
    ensures forall c :: c in AllChannels(scopes) <==> exists i :: 0 <= i < |scopes| && c in scopes[i].channels
    decreases |scopes|
  {
    if |scopes| > 0 {
      var init := scopes[..|scopes| - 1];
      AllChannelsMembers(init);
      assert forall i :: 0 <= i < |init| ==> init[i] == scopes[i];
      forall c | exists i :: 0 <= i < |scopes| && c in scopes[i].channels
        ensures c in AllChannels(scopes)
      {
        var i :| 0 <= i < |scopes| && c in scopes[i].channels;
        if i < |init| {
          assert c in AllChannels(init);
        }
      }
    }
  }

  /**
   A timestamp is found exactly when some stream holds a waveform, and the
   as-written and intended searches agree on whether there is one.
   */
  lemma FoundIffFirst(scopes: seq<Scope>)
    ensures FoundTimestamp(scopes).Some? <==> HasWaveform(scopes)
    ensures FoundTimestamp(scopes).Some? <==> FirstTimestamp(scopes).Some?
  {
    var chans := AllChannels(scopes);
    LastChannelTimeSpec(chans);
    FirstChannelTimeSpec(chans);
    AllChannelsMembers(scopes);
    if HasWaveform(scopes) {
      var i, ci, j :| 0 <= i < |scopes| && 0 <= ci < |scopes[i].channels|
        && 0 <= j < |scopes[i].channels[ci].streams| && scopes[i].channels[ci].streams[j].Some?;
      var c := scopes[i].channels[ci];
      assert c in chans;
      var k :| 0 <= k < |chans| && chans[k] == c;
      assert FirstStreamTime(chans[k].streams).Some?;
    }
    if FoundTimestamp(scopes).Some? {
      var k :| 0 <= k < |chans| && FirstStreamTime(chans[k].streams).Some?;
      var j :| 0 <= j < |chans[k].streams| && chans[k].streams[j].Some?;
      assert chans[k] in chans;
      var i :| 0 <= i < |scopes| && chans[k] in scopes[i].channels;
      var ci :| 0 <= ci < |scopes[i].channels| && scopes[i].channels[ci] == chans[k];
      assert scopes[i].channels[ci].streams[j].Some?;
    }
  }

  /** One scope, two channels with data at different times: the first pass reports the second. */
  lemma LaterChannelOverwrites(w1: Waveform, w2: Waveform)
    requires StartTime(w1) != StartTime(w2)
    ensures var scopes := [Scope(0, [Channel([Some(w1)]), Channel([Some(w2)])])];
      FoundTimestamp(scopes) == Some(StartTime(w2))
      && FirstTimestamp(scopes) == Some(StartTime(w1))
      && FoundTimestamp(scopes) != FirstTimestamp(scopes)
  {
    var scopes := [Scope(0, [Channel([Some(w1)]), Channel([Some(w2)])])];
    assert scopes[..0] == [];
    assert AllChannels(scopes) == [Channel([Some(w1)]), Channel([Some(w2)])];
  }

  ////////////////////////////////////////////////////////////////////////////
  // The new point

  /** The waveforms of every stream of one scope, keyed by (channel, stream). */
  function StreamsOf(scope: Scope): (h: WaveformHistory)
    ensures forall ci, j :: 0 <= ci < |scope.channels| && 0 <= j < |scope.channels[ci].streams| ==>
      StreamKey(ci, j) in h && h[StreamKey(ci, j)] == scope.channels[ci].streams[j]
    ensures forall k :: k in h ==> k.channel < |scope.channels| && k.stream < |scope.channels[k.channel].streams|
  {
    map ci, j | 0 <= ci < |scope.channels| && 0 <= j < |scope.channels[ci].streams|
      :: StreamKey(ci, j) := scope.channels[ci].streams[j]
  }

  /** `pt->m_history[scope] = hist` for each scope in turn. */
  function Snapshot(scopes: seq<Scope>): (m: map<ScopeId, WaveformHistory>)
    ensures forall id :: id in m <==> exists i :: 0 <= i < |scopes| && scopes[i].id == id
    decreases |scopes|
  {
    if |scopes| == 0 then map[]
    else
      var init := scopes[..|scopes| - 1];
      var m := Snapshot(init)[scopes[|scopes| - 1].id := StreamsOf(scopes[|scopes| - 1])];
      assert forall i :: 0 <= i < |init| ==> init[i] == scopes[i];
      m
  }

  /** Two entries with the same handle are the same scope (a scope may be listed twice). */
  predicate ConsistentIds(scopes: seq<Scope>)
  {
    forall i, j :: 0 <= i < j < |scopes| && scopes[i].id == scopes[j].id ==> scopes[i] == scopes[j]
  }

  /** Each scope's entry is exactly its own streams. */
  lemma {:induction false} SnapshotContents(scopes: seq<Scope>, i: nat)
    requires ConsistentIds(scopes) && i < |scopes|
    ensures scopes[i].id in Snapshot(scopes) && Snapshot(scopes)[scopes[i].id] == StreamsOf(scopes[i])
    decreases |scopes|
  {
    if i < |scopes| - 1 {
      var init := scopes[..|scopes| - 1];
      assert init[i] == scopes[i];
      SnapshotContents(init, i);
    }
  }

  function NewPoint(tp: TimePoint, scopes: seq<Scope>): HistoryPoint
  {
    HistoryPoint(tp, false, "", Snapshot(scopes))
  }

  ////////////////////////////////////////////////////////////////////////////
  // Eviction

  /** A point the eviction loop may remove: not pinned and no markers at its time. */
  predicate Evictable(p: HistoryPoint, s: Session.SessionState)
  {
    !p.pinned && Session.MarkersAt(s, p.time) == []
  }

  /** Index of the first evictable point at or after `i`. */
  function FirstEvictable(h: seq<HistoryPoint>, i: nat, s: Session.SessionState): (r: Option<nat>)
    ensures r.Some? ==> (i <= r.value < |h| && Evictable(h[r.value], s)
      && forall k :: i <= k < r.value ==> !Evictable(h[k], s))
    ensures r.None? ==> forall k :: i <= k < |h| ==> !Evictable(h[k], s)
    decreases |h| - i
  {
    if i >= |h| then None
    else if Evictable(h[i], s) then Some(i)
    else FirstEvictable(h, i + 1, s)
  }

  /**
   The `for` loop inside the eviction loop, from index `i`: pinned points are
   skipped without touching the markers; for the others `GetMarkers` is
   consulted, and the first one with no markers is erased together with its
   marker entry, ending the scan.
   */
  function ScanEvict(h: seq<HistoryPoint>, i: nat, s: Session.SessionState): (r: (seq<HistoryPoint>, Session.SessionState))
    ensures FirstEvictable(h, i, s).None? ==> r == (h, s)
    ensures FirstEvictable(h, i, s).Some? ==>
      var k := FirstEvictable(h, i, s).value;
      r.0 == h[..k] + h[k + 1..] && r.1 == Session.RemoveMarkers(s, h[k].time)
    decreases |h| - i
  {
    if i >= |h| then (h, s)
    else if h[i].pinned then ScanEvict(h, i + 1, s)
    else
      var (s1, ms) := Session.GetMarkers(s, h[i].time);
      if |ms| != 0 then
        assert s1 == s;
        ScanEvict(h, i + 1, s1)
      else
        Session.GetThenRemoveMarkers(s, h[i].time);
        (h[..i] + h[i + 1..], Session.RemoveMarkers(s1, h[i].time))
  }

  /** Eviction never loses a marker: every timestamp shows the same list afterwards. */
  lemma ScanEvictKeepsMarkers(h: seq<HistoryPoint>, s: Session.SessionState, t: TimePoint)
    ensures Session.MarkersAt(ScanEvict(h, 0, s).1, t) == Session.MarkersAt(s, t)
  {
  }

  /**
   One iteration of the `while` loop: as written `deletedSomething` stays
   false, so the loop always stops after its first scan.
   */
  function EvictOnce(h: seq<HistoryPoint>, s: Session.SessionState, limit: nat): (seq<HistoryPoint>, Session.SessionState)
  {
    if |h| > limit then ScanEvict(h, 0, s) else (h, s)
  }

  /** AddHistory as written. */
  function AddHistory(hm: HistoryManager, s: Session.SessionState, scopes: seq<Scope>): (r: (HistoryManager, Session.SessionState))
    ensures FoundTimestamp(scopes).None? ==> r == (hm, s)
    ensures FoundTimestamp(scopes).Some? ==>
      |hm.history| <= |r.0.history| <= |hm.history| + 1
    ensures r.0.maxDepth == hm.maxDepth
    ensures forall t :: Session.MarkersAt(r.1, t) == Session.MarkersAt(s, t)
    ensures forall p :: p in hm.history && !Evictable(p, s) ==> p in r.0.history
  {
    match FoundTimestamp(scopes)
    case None => (hm, s)
    case Some(tp) =>
      var h := hm.history + [NewPoint(tp, scopes)];
      var (h', s') := EvictOnce(h, s, DepthLimit(hm.maxDepth));
      assert forall p :: p in hm.history && !Evictable(p, s) ==> p in h' by {
        forall p | p in hm.history && !Evictable(p, s) ensures p in h' {
          var k :| 0 <= k < |hm.history| && hm.history[k] == p;
          assert h[k] == p;
          if |h| > DepthLimit(hm.maxDepth) && FirstEvictable(h, 0, s).Some? {
            var e := FirstEvictable(h, 0, s).value;
            if k < e { assert h'[k] == p; } else { assert h'[k - 1] == p; }
          }
        }
      }
      (hm.(history := h'), s')
  }

  /** How AddHistory changes the list: the new point appended, then at most the first evictable point removed. */
  lemma AddHistoryShape(hm: HistoryManager, s: Session.SessionState, scopes: seq<Scope>)
    requires FoundTimestamp(scopes).Some?
    ensures var tp := FoundTimestamp(scopes).value;
      var h := hm.history + [NewPoint(tp, scopes)];
      var r := AddHistory(hm, s, scopes).0.history;
      if |h| > DepthLimit(hm.maxDepth) && FirstEvictable(h, 0, s).Some? then
        var k := FirstEvictable(h, 0, s).value;
        Evictable(h[k], s) && (forall j :: 0 <= j < k ==> !Evictable(h[j], s))
        && r == h[..k] + h[k + 1..]
      else r == h
  {
  }

  /** The new point: unpinned, stamped with the found time, one entry per stream of every scope. */
  lemma NewPointContents(tp: TimePoint, scopes: seq<Scope>, i: nat, ci: nat, j: nat)
    requires ConsistentIds(scopes) && i < |scopes|
    requires ci < |scopes[i].channels| && j < |scopes[i].channels[ci].streams|
    ensures var p := NewPoint(tp, scopes);
      !p.pinned && p.time == tp
      && scopes[i].id in p.history
      && StreamKey(ci, j) in p.history[scopes[i].id]
      && p.history[scopes[i].id][StreamKey(ci, j)] == scopes[i].channels[ci].streams[j]
  {
    SnapshotContents(scopes, i);
  }

  /**
   Starting within the bound, AddHistory ends within it, or exactly one over
   it with nothing left that could be evicted.
   */
  lemma AddHistoryBound(hm: HistoryManager, s: Session.SessionState, scopes: seq<Scope>)
    requires |hm.history| <= DepthLimit(hm.maxDepth)
    ensures var r := AddHistory(hm, s, scopes);
      |r.0.history| <= DepthLimit(hm.maxDepth)
      || (|r.0.history| == DepthLimit(hm.maxDepth) + 1
          && forall k :: 0 <= k < |r.0.history| ==> !Evictable(r.0.history[k], r.1))
  {
    if FoundTimestamp(scopes).Some? {
      AddHistoryShape(hm, s, scopes);
    }
  }

  ////////////////////////////////////////////////////////////////////////////
  // Queries

  /** Time of the newest point, or (0, 0) for an empty history. */
  function GetMostRecentPoint(hm: HistoryManager): (t: TimePoint)
    ensures |hm.history| == 0 ==> t == Zero
    ensures |hm.history| > 0 ==> t == hm.history[|hm.history| - 1].time
  {
    if |hm.history| == 0 then Zero else hm.history[|hm.history| - 1].time
  }

  /** The first point stamped `t`, or `None`. */
  function GetHistory(hm: HistoryManager, t: TimePoint): (r: Option<HistoryPoint>)
    ensures r.None? <==> forall k :: 0 <= k < |hm.history| ==> hm.history[k].time != t
    ensures r.Some? ==>
      exists k :: 0 <= k < |hm.history| && hm.history[k] == r.value
        && r.value.time == t && forall j :: 0 <= j < k ==> hm.history[j].time != t
  {
    FirstWithTime(hm.history, t)
  }

  function FirstWithTime(h: seq<HistoryPoint>, t: TimePoint): (r: Option<HistoryPoint>)
    ensures r.None? <==> forall k :: 0 <= k < |h| ==> h[k].time != t
    ensures r.Some? ==>
      exists k :: 0 <= k < |h| && h[k] == r.value
        && r.value.time == t && forall j :: 0 <= j < k ==> h[j].time != t
    decreases |h|
  {
    if |h| == 0 then None
    else if h[0].time == t then Some(h[0])
    else
      var r := FirstWithTime(h[1..], t);
      assert forall k :: 1 <= k < |h| ==> h[k] == h[1..][k - 1];
      r
  }

  /**
   The new point is evicted in the same call exactly when the list overflowed,
   no older point was evictable, and the new time carries no markers.
   */
  predicate NewPointEvicted(hm: HistoryManager, s: Session.SessionState, tp: TimePoint)
  {
    && |hm.history| + 1 > DepthLimit(hm.maxDepth)
    && (forall k :: 0 <= k < |hm.history| ==> !Evictable(hm.history[k], s))
    && Session.MarkersAt(s, tp) == []
  }

  /** Unless the new point was evicted, it is the most recent point and GetHistory finds a point at its time. */
  lemma AddHistoryThenQuery(hm: HistoryManager, s: Session.SessionState, scopes: seq<Scope>)
    requires FoundTimestamp(scopes).Some?
    ensures var tp := FoundTimestamp(scopes).value;
      var r := AddHistory(hm, s, scopes).0;
      if NewPointEvicted(hm, s, tp) then r.history == hm.history
      else GetMostRecentPoint(r) == tp && GetHistory(r, tp).Some?
  {
    var tp := FoundTimestamp(scopes).value;
    var h := hm.history + [NewPoint(tp, scopes)];
    var r := AddHistory(hm, s, scopes).0;
    AddHistoryShape(hm, s, scopes);
    if NewPointEvicted(hm, s, tp) {
      assert Evictable(h[|h| - 1], s);
      assert FirstEvictable(h, 0, s) == Some(|hm.history|);
      assert h[..|hm.history|] == hm.history;
    } else {
      if |h| > DepthLimit(hm.maxDepth) && FirstEvictable(h, 0, s).Some? {
        var k := FirstEvictable(h, 0, s).value;
        assert k < |hm.history|;
        assert r.history[|r.history| - 1] == h[|h| - 1];
      }
      assert r.history[|r.history| - 1].time == tp;
    }
  }

  ////////////////////////////////////////////////////////////////////////////
  // The evidently intended behaviour

  /** The eviction loop as its comment describes it: keep evicting until within the bound or nothing is evictable. */
  function EvictUntilBound(h: seq<HistoryPoint>, s: Session.SessionState, limit: nat): (r: (seq<HistoryPoint>, Session.SessionState))
    ensures |r.0| <= limit || forall k :: 0 <= k < |r.0| ==> !Evictable(r.0[k], r.1)
    ensures forall t :: Session.MarkersAt(r.1, t) == Session.MarkersAt(s, t)
    ensures |r.0| <= |h|
    decreases |h|
  {
    if |h| <= limit then (h, s)
    else
      var (h', s') := ScanEvict(h, 0, s);
      if |h'| == |h| then (h, s)
      else EvictUntilBound(h', s', limit)
  }

  /** AddHistory with both corrections: the first waveform's timestamp, and eviction down to the bound. */
  function AddHistoryCorrected(hm: HistoryManager, s: Session.SessionState, scopes: seq<Scope>): (r: (HistoryManager, Session.SessionState))
    ensures FirstTimestamp(scopes).None? ==> r == (hm, s)
    ensures FirstTimestamp(scopes).Some? ==>
      |r.0.history| <= DepthLimit(hm.maxDepth)
      || forall k :: 0 <= k < |r.0.history| ==> !Evictable(r.0.history[k], r.1)
    ensures forall t :: Session.MarkersAt(r.1, t) == Session.MarkersAt(s, t)
  {
    match FirstTimestamp(scopes)
    case None => (hm, s)
    case Some(tp) =>
      var (h', s') := EvictUntilBound(hm.history + [NewPoint(tp, scopes)], s, DepthLimit(hm.maxDepth));
      (hm.(history := h'), s')
  }

  /**
   Two unpinned, unmarked points and a depth of 1: as written AddHistory leaves
   two points although the older one could still be evicted.
   */
  lemma OnlyOneEvictionPerCall(p1: HistoryPoint, p2: HistoryPoint, s: Session.SessionState, w: Waveform)
    requires Evictable(p1, s) && Evictable(p2, s)
    ensures var r := AddHistory(HistoryManager([p1, p2], 1), s, [Scope(0, [Channel([Some(w)])])]);
      |r.0.history| == 2 && Evictable(r.0.history[0], r.1)
  {
    var scopes := [Scope(0, [Channel([Some(w)])])];
    assert scopes[..0] == [];
    assert AllChannels(scopes) == [Channel([Some(w)])];
    assert FoundTimestamp(scopes) == Some(StartTime(w));
    var np := NewPoint(StartTime(w), scopes);
    var h := [p1, p2, np];
    assert [p1, p2] + [np] == h;
    assert FirstEvictable(h, 0, s) == Some(0);
    assert h[..0] + h[1..] == [p2, np];
    var r := AddHistory(HistoryManager([p1, p2], 1), s, scopes);
    assert r.0.history == [p2, np];
    assert Session.MarkersAt(r.1, p2.time) == Session.MarkersAt(s, p2.time);
  }

  /** The same situation with the corrected eviction loop: trimmed down to the depth. */
  lemma CorrectedEvictionReachesBound(p1: HistoryPoint, p2: HistoryPoint, s: Session.SessionState, w: Waveform)
    requires Evictable(p1, s) && Evictable(p2, s)
    ensures |AddHistoryCorrected(HistoryManager([p1, p2], 1), s, [Scope(0, [Channel([Some(w)])])]).0.history| == 1
  {
    var scopes := [Scope(0, [Channel([Some(w)])])];
    var np := NewPoint(StartTime(w), scopes);
    var h := [p1, p2, np];
    assert AddHistoryCorrected(HistoryManager([p1, p2], 1), s, scopes).0.history == EvictUntilBound(h, s, 1).0 by {
      assert scopes[..0] == [];
      assert AllChannels(scopes) == [Channel([Some(w)])];
      assert FirstTimestamp(scopes) == Some(StartTime(w));
      assert [p1, p2] + [np] == h;
    }
    var s1 := ScanEvict(h, 0, s).1;
    assert ScanEvict(h, 0, s).0 == [p2, np] by {
      assert FirstEvictable(h, 0, s) == Some(0);
      assert h[..0] + h[1..] == [p2, np];
    }
    var s2 := ScanEvict([p2, np], 0, s1).1;
    assert ScanEvict([p2, np], 0, s1).0 == [np] by {
      assert Session.MarkersAt(s1, p2.time) == Session.MarkersAt(s, p2.time);
      assert FirstEvictable([p2, np], 0, s1) == Some(0);
      assert [p2, np][..0] + [p2, np][1..] == [np];
    }
    assert EvictUntilBound([np], s2, 1) == ([np], s2);
    assert EvictUntilBound([p2, np], s1, 1) == EvictUntilBound([np], s2, 1);
    assert EvictUntilBound(h, s, 1) == EvictUntilBound([p2, np], s1, 1);
  }
}
