/**
 The parts of the session object that the history code and the menus rely on:
 the marker store (markers keyed by waveform timestamp), the marker name
 counter, the packet-manager table and the reference-filter table. Every
 accessor is a `std::map::operator[]`, so a lookup of an absent key inserts a
 default (an empty marker list, or a null pointer).
 */
module Session {
  import opened Wrappers
  import opened TimePoints
  import StdMap
  import Decimal

  /** Handle of a protocol decoder filter (a `PacketDecoder*` in the C++ program). */
  type DecoderId = nat
  /** Handle of a packet manager object. */
  type PacketManagerId = nat
  /** Handle of a reference filter instance. */
  type FilterId = nat

  /** A marker on a waveform; `timestamp` is the key it is stored under. */
  datatype Marker = Marker(timestamp: TimePoint, offset: int, name: string)

  datatype SessionState = SessionState(
    markers: map<TimePoint, seq<Marker>>,
    nextMarkerNum: int,
    packetManagers: map<DecoderId, Option<PacketManagerId>>,
    referenceFilters: map<string, Option<FilterId>>)

  /** The markers at `t`, an absent key reading as the empty list. */
  function MarkersAt(s: SessionState, t: TimePoint): seq<Marker>
  {
    StdMap.ValueOr(s.markers, t, [])
  }

  /** Appends `m` to the list stored at `m.timestamp`. */
  function AddMarker(s: SessionState, m: Marker): (r: SessionState)
    ensures m.timestamp in r.markers
    ensures MarkersAt(r, m.timestamp) == MarkersAt(s, m.timestamp) + [m]
    ensures forall t :: t != m.timestamp ==> (t in r.markers <==> t in s.markers)
    ensures forall t :: t != m.timestamp && t in s.markers ==> r.markers[t] == s.markers[t]
    ensures r.nextMarkerNum == s.nextMarkerNum && r.packetManagers == s.packetManagers
    ensures r.referenceFilters == s.referenceFilters
  {
    var (ms, cur) := StdMap.Subscript(s.markers, m.timestamp, []);
    s.(markers := ms[m.timestamp := cur + [m]])
  }

  /** The name a marker numbered `n` gets. */
  function MarkerName(n: int): string
  {
    "M" + Decimal.IntToString(n)
  }

  /** Names "M" + the counter, then advances the counter (post-increment). */
  function GetNextMarkerName(s: SessionState): (r: (SessionState, string))
    ensures r.0 == s.(nextMarkerNum := s.nextMarkerNum + 1)
    ensures |r.1| >= 2 && r.1[0] == 'M'
    ensures r.1[1..] == Decimal.IntToString(s.nextMarkerNum)
  {
    (s.(nextMarkerNum := s.nextMarkerNum + 1), MarkerName(s.nextMarkerNum))
  }

  /** Names made from different counter values differ. */
  lemma MarkerNameInjective(a: int, b: int)
    ensures MarkerName(a) == MarkerName(b) ==> a == b
  {
    if MarkerName(a) == MarkerName(b) {
      assert MarkerName(a)[1..] == Decimal.IntToString(a);
      assert MarkerName(b)[1..] == Decimal.IntToString(b);
      Decimal.IntToStringInjective(a, b);
    }
  }

  /** Names handed out `k` calls apart (k > 0) are different. */
  lemma {:induction false} SuccessiveMarkerNamesDistinct(s: SessionState, k: nat)
    requires k > 0
    ensures GetNextMarkerName(s).1 != GetNextMarkerName(s.(nextMarkerNum := s.nextMarkerNum + k)).1
  {
    MarkerNameInjective(s.nextMarkerNum, s.nextMarkerNum + k);
  }

  /** `GetMarkers(t)`: the list at `t`; an absent key is inserted with an empty list. */
  function GetMarkers(s: SessionState, t: TimePoint): (r: (SessionState, seq<Marker>))
    ensures r.1 == MarkersAt(s, t)
    ensures t !in s.markers ==> r.1 == []
    ensures r.0.markers.Keys == s.markers.Keys + {t}
    ensures forall u :: u in s.markers ==> r.0.markers[u] == s.markers[u]
    ensures forall u :: MarkersAt(r.0, u) == MarkersAt(s, u)
    ensures r.0.nextMarkerNum == s.nextMarkerNum && r.0.packetManagers == s.packetManagers
    ensures r.0.referenceFilters == s.referenceFilters
  {
    var (ms, v) := StdMap.Subscript(s.markers, t, []);
    (s.(markers := ms), v)
  }

  /** `RemoveMarkers(t)`: erases key `t` only. */
  function RemoveMarkers(s: SessionState, t: TimePoint): (r: SessionState)
    ensures r.markers.Keys == s.markers.Keys - {t}
    ensures forall u :: u != t ==> MarkersAt(r, u) == MarkersAt(s, u)
    ensures MarkersAt(r, t) == []
    ensures r.nextMarkerNum == s.nextMarkerNum && r.packetManagers == s.packetManagers
    ensures r.referenceFilters == s.referenceFilters
  {
    s.(markers := StdMap.Erase(s.markers, t))
  }

  /** `GetPacketManager(f)`: the manager for `f`, or a null entry inserted and returned. */
  function GetPacketManager(s: SessionState, f: DecoderId): (r: (SessionState, Option<PacketManagerId>))
    ensures f in r.0.packetManagers && r.1 == r.0.packetManagers[f]
    ensures f in s.packetManagers ==> r.0 == s && r.1 == s.packetManagers[f]
    ensures f !in s.packetManagers ==> r.1 == None && r.0.packetManagers == s.packetManagers[f := None]
    ensures r.0.markers == s.markers && r.0.referenceFilters == s.referenceFilters
    ensures r.0.nextMarkerNum == s.nextMarkerNum
  {
    var (pm, v) := StdMap.Subscript(s.packetManagers, f, None);
    (s.(packetManagers := pm), v)
  }

  /** `GetReferenceFilter(name)`: the filter, or a null entry inserted and returned. */
  function GetReferenceFilter(s: SessionState, name: string): (r: (SessionState, Option<FilterId>))
    ensures name in r.0.referenceFilters && r.1 == r.0.referenceFilters[name]
    ensures name in s.referenceFilters ==> r.0 == s && r.1 == s.referenceFilters[name]
    ensures name !in s.referenceFilters ==> r.1 == None && r.0.referenceFilters == s.referenceFilters[name := None]
    ensures r.0.markers == s.markers && r.0.packetManagers == s.packetManagers
    ensures r.0.nextMarkerNum == s.nextMarkerNum
  {
    var (rf, v) := StdMap.Subscript(s.referenceFilters, name, None);
    (s.(referenceFilters := rf), v)
  }

  /** Adding a marker and then reading its timestamp's list shows it as the last marker there. */
  lemma AddThenGetMarkers(s: SessionState, m: Marker)
    ensures var ms := GetMarkers(AddMarker(s, m), m.timestamp).1;
      |ms| >= 1 && ms[|ms| - 1] == m && ms[..|ms| - 1] == MarkersAt(s, m.timestamp)
  {
  }

  /** Reading markers at `t` and then removing them equals removing them directly. */
  lemma GetThenRemoveMarkers(s: SessionState, t: TimePoint)
    ensures RemoveMarkers(GetMarkers(s, t).0, t) == RemoveMarkers(s, t)
  {
    StdMap.SubscriptThenErase(s.markers, t, []);
  }
}
