# ngscopeclient shell logic, modelled in Dafny

This project models the sequential logic in the ngscopeclient GUI shell of
scopehal-apps that has a statable result. Everything is a pure function over
immutable datatypes, or a short method with loop invariants. The pieces are:

- **Waveform history retention** (`History`, on top of `Session`). After each
  acquisition, `HistoryManager::AddHistory` looks for a timestamp among the
  streams of every scope. It appends an unpinned history point that snapshots
  every stream, then trims the list towards `m_maxDepth`. Trimming evicts the
  earliest point that is neither pinned nor carrying markers.
  `GetMostRecentPoint` and `GetHistory` query the list.
- **The session's map-with-default accessors** (`Session`, `StdMap`).
  `AddMarker`, `GetMarkers`, `RemoveMarkers`, `GetNextMarkerName`,
  `GetPacketManager` and `GetReferenceFilter` are all built on
  `std::map::operator[]`, which inserts a default when the key is absent.
- **The Add menu's recent-instrument entries** (`RecentInstruments`). This
  covers:
  - the reverse map from last-use time to connection strings;
  - the deduplicated ascending timestamp list, walked newest first;
  - the `nick:driver:transport:path[:more]` split and the path re-join;
  - the per-family field minimum and the driver-set filter.
- **The Add | Import and Add | Generate menus** (`FilterMenus`).
- **The RF and function generator dialogs** (`RFGeneratorDialog`,
  `FunctionGeneratorDialog`). This covers:
  - the enum-to-combo-row mappings over aligned name and enumeration lists;
  - the input lockouts that sweeps and waveform shapes impose;
  - which inputs a channel shows;
  - one UI state per channel.
- **Ownership protocols** (`MainWindow`, `Connect`). This covers:
  - the `AddRef`/`Release` balance of queued `SplitGroupRequest`s;
  - the redraw and close flags;
  - the dialog registry;
  - who owns the transport after each outcome of a connection attempt.

`Wrappers`, `Strings`, `Decimal` and `TimePoints` are support modules. They
hold the option type, lexicographic string order, substring search, join and
split, and decimal rendering (the model of `std::to_string`).

Source paths below are relative to the repository root. The code evicts at
most one point per call and never evicts pinned or marked points, so the list
can stay above `m_maxDepth`; see `History.AddHistoryBound` and the Findings.

## Model

| member | source | states |
|---|---|---|
| StdMap.Subscript | src/ngscopeclient/Session.h:376-377 | `operator[]`: the key is present afterwards, existing entries keep their values, the result is the stored value, and an absent key yields the default |
| Session.AddMarker | src/ngscopeclient/Session.h:270-271 | the marker is appended to its timestamp's list; every other timestamp's list and all other session state are unchanged |
| Session.GetNextMarkerName | src/ngscopeclient/Session.h:370-371 | the name is "M" followed by the decimal form of the counter, and the counter is incremented by exactly one |
| Session.MarkerNameInjective | src/ngscopeclient/Session.h:370-371 | different counter values give different marker names |
| Session.SuccessiveMarkerNamesDistinct | src/ngscopeclient/Session.h:370-371 | names handed out by calls k > 0 apart are distinct |
| Decimal.ParseNatToString | src/ngscopeclient/Session.h:371 | the decimal rendering of a counter reads back as the same number |
| Decimal.IntToStringInjective | src/ngscopeclient/Session.h:371 | the decimal rendering of integers is injective, negative numbers included |
| Session.GetMarkers | src/ngscopeclient/Session.h:376-377 | returns the list at t; an absent t is inserted with an empty list; every timestamp's visible markers are unchanged |
| Session.RemoveMarkers | src/ngscopeclient/Session.h:382-383 | erases key t only; every other timestamp's markers are unchanged |
| Session.AddThenGetMarkers | src/ngscopeclient/Session.h:270-271 | after adding a marker, reading its timestamp shows the earlier markers followed by the new one |
| Session.GetThenRemoveMarkers | src/ngscopeclient/Session.h:376-383 | the empty entry GetMarkers inserts is gone after RemoveMarkers: the pair equals RemoveMarkers alone |
| Session.GetPacketManager | src/ngscopeclient/Session.h:201-205 | a known decoder returns its manager with nothing changed; an unknown one gets a null entry, which is returned |
| Session.GetReferenceFilter | src/ngscopeclient/Session.h:405-406 | a known name returns its filter with nothing changed; an unknown one gets a null entry, which is returned |
| History.NewHistoryManager | src/ngscopeclient/HistoryManager.cpp:121-125 | a new manager has an empty history and depth 10 |
| History.DepthLimit | src/ngscopeclient/HistoryManager.cpp:187 | the depth is compared as `size_t`: non-negative depths are used as they are, and negative ones wrap to at least 2^63 |
| History.FirstStreamTime | src/ngscopeclient/HistoryManager.cpp:145-154 | the inner loop finds the first stream with data; None exactly when no stream has data |
| History.LastChannelTimeSpec | src/ngscopeclient/HistoryManager.cpp:139-157 | the first pass yields the first-stream time of a channel with data after which no channel has data, or nothing when no channel has data |
| History.FindTimestamp | src/ngscopeclient/HistoryManager.cpp:136-157 | the triple loop with its stream-only break computes exactly that last-channel timestamp, and (0,0) with found = false otherwise |
| History.AllChannelsMembers | src/ngscopeclient/HistoryManager.cpp:140-144 | the channels the first pass visits are exactly the channels of the scopes passed in |
| History.FoundIffFirst | src/ngscopeclient/HistoryManager.cpp:139-162 | a timestamp is found exactly when some stream of some scope holds a waveform, and the as-written and intended searches agree on that |
| History.StreamsOf | src/ngscopeclient/HistoryManager.cpp:173-180 | one entry per (channel, stream) of the scope, holding that stream's data, and no other entries |
| History.Snapshot | src/ngscopeclient/HistoryManager.cpp:171-183 | the point's history has an entry for exactly the scopes passed in |
| History.SnapshotContents | src/ngscopeclient/HistoryManager.cpp:171-183 | each scope's entry is exactly its own stream snapshot, also when a scope is listed twice |
| History.NewPointContents | src/ngscopeclient/HistoryManager.cpp:164-183 | the new point is unpinned, carries the found time, and holds every stream of every scope |
| History.FirstEvictable | src/ngscopeclient/HistoryManager.cpp:192-198 | the first index whose point is neither pinned nor marked, with every earlier point ineligible |
| History.ScanEvict | src/ngscopeclient/HistoryManager.cpp:192-202 | the scan removes exactly the earliest eligible point, keeps the others in order, and erases that time's marker entry |
| History.ScanEvictKeepsMarkers | src/ngscopeclient/HistoryManager.cpp:195-201 | eviction never loses a marker: every timestamp shows the same markers afterwards |
| History.AddHistory | src/ngscopeclient/HistoryManager.cpp:134-209 | no data: nothing changes; otherwise the size grows by 0 or 1, the depth is kept, no marker is lost, and no pinned or marked point is removed |
| History.AddHistoryShape | src/ngscopeclient/HistoryManager.cpp:164-208 | the result is the old list plus the new point, minus at most its first eligible point, and only when the list overflowed |
| History.AddHistoryBound | src/ngscopeclient/HistoryManager.cpp:187-208 | starting within the bound, the list ends within it, or one over it with no eligible point left |
| History.GetMostRecentPoint | src/ngscopeclient/HistoryManager.cpp:214-220 | the last point's time, or (0,0) for an empty history |
| History.GetHistory | src/ngscopeclient/HistoryManager.cpp:225-234 | the first point stamped t, or None exactly when no point is stamped t |
| History.AddHistoryThenQuery | src/ngscopeclient/HistoryManager.cpp:164-220 | unless the new point is itself evicted (the list overflowed, no older point was eligible, and its time is unmarked), it is the most recent point and GetHistory finds its time |
| History.LaterChannelOverwrites | src/ngscopeclient/HistoryManager.cpp:139-157 | two channels with data at different times: the first pass reports the second channel's time, not the first waveform's |
| History.FirstChannelTimeSpec | src/ngscopeclient/HistoryManager.cpp:139 | the intended search returns the time of the first channel with data |
| History.OnlyOneEvictionPerCall | src/ngscopeclient/HistoryManager.cpp:189-207 | with depth 1 and two eligible old points, AddHistory leaves two points, one of them still eligible |
| History.EvictUntilBound | src/ngscopeclient/HistoryManager.cpp:187-208 | the intended loop ends within the bound or with no eligible point left, and loses no marker |
| History.AddHistoryCorrected | src/ngscopeclient/HistoryManager.cpp:134-209 | the intended AddHistory ends within the bound or with nothing eligible, and loses no marker |
| History.CorrectedEvictionReachesBound | src/ngscopeclient/HistoryManager.cpp:205-207 | in the same situation, the intended loop trims the list down to one point |
| RecentInstruments.UsedAtTime | src/ngscopeclient/MainWindow_Menus.cpp:150-152 | the strings grouped under t are non-empty exactly when some entry was last used at t |
| RecentInstruments.ReverseMap | src/ngscopeclient/MainWindow_Menus.cpp:150-152 | the reverse map has a key for exactly the recorded times, and each key holds that time's strings |
| RecentInstruments.UsedAtTimeMembers | src/ngscopeclient/MainWindow_Menus.cpp:150-152 | a string is grouped under t exactly when the recent list records it with time t |
| RecentInstruments.UsedAtTimeSorted | src/ngscopeclient/MainWindow_Menus.cpp:151-152 | the strings under one time keep the map's ascending order |
| RecentInstruments.ReverseMapExact | src/ngscopeclient/MainWindow_Menus.cpp:150-152 | `reverseMap[t]` holds exactly the strings last used at t, ascending |
| RecentInstruments.InsertTime | src/ngscopeclient/MainWindow_Menus.cpp:155-157 | inserting into the ascending set image keeps it ascending, adding exactly that time |
| RecentInstruments.SortedTimestamps | src/ngscopeclient/MainWindow_Menus.cpp:154-161 | `timestamps` is duplicate-free and ascending and holds exactly the recorded times |
| RecentInstruments.RejoinPath | src/ngscopeclient/MainWindow_Menus.cpp:217-219 | the loop builds field 3 followed by ":" and each later field, i.e. the join of fields 3 onwards |
| RecentInstruments.ParseFields | src/ngscopeclient/MainWindow_Menus.cpp:206-219 | an entry is accepted exactly when it has the family's minimum number of fields; fields 0-2 are nick, driver and transport, and the path is the re-join (empty for 3 fields) |
| RecentInstruments.PathKeepsColons | src/ngscopeclient/MainWindow_Menus.cpp:209-219 | if the split is undone by joining, the string is nick:driver:transport:path, so colons inside the path survive |
| RecentInstruments.SplitFieldCount | src/ngscopeclient/MainWindow_Menus.cpp:352-367 | with the reference splitter, an entry's fields are accepted exactly when it has at least MinFields - 1 colons (3 fields for scopes, 4 otherwise); a string with 4 or more fields is nick:driver:transport:path |
| RecentInstruments.SplitOffered | src/ngscopeclient/MainWindow_Menus.cpp:352-367 | with the reference splitter, an entry is offered exactly when it has at least MinFields - 1 colons and its driver field is in the family's driver set |
| RecentInstruments.DriverSet | src/ngscopeclient/MainWindow_Menus.cpp:192-196 | the driver set holds exactly the enumerated driver names |
| RecentInstruments.ItemsAt | src/ngscopeclient/MainWindow_Menus.cpp:202-213 | the items for one time are exactly its strings that parse and whose driver is in the family's set, each with its parsed fields |
| RecentInstruments.WalkFrom | src/ngscopeclient/MainWindow_Menus.cpp:199-201 | every item of the walk comes from one of the walked timestamps |
| RecentInstruments.WalkNewestFirst | src/ngscopeclient/MainWindow_Menus.cpp:199-201 | walking ascending timestamps from the last index down lists items newest first |
| RecentInstruments.WalkMembers | src/ngscopeclient/MainWindow_Menus.cpp:199-213 | a string appears in the walk exactly when it is grouped under a walked time and is offered |
| RecentInstruments.RecentMenuNewestFirst | src/ngscopeclient/MainWindow_Menus.cpp:145-161 | each family's recent entries run from the most recently used to the least |
| RecentInstruments.RecentMenuMembers | src/ngscopeclient/MainWindow_Menus.cpp:182-219 | a recent instrument appears in a family's menu exactly when its entry has enough fields and its driver is one of the family's drivers |
| Strings.InsertSorted | src/ngscopeclient/MainWindow_Menus.cpp:614-619 | inserting into a strictly sorted name list keeps it strictly sorted and adds exactly that name |
| Strings.JoinSplit | src/ngscopeclient/MainWindow_Menus.cpp:205 | the reference splitter is undone by joining with the separator |
| Strings.ContainsIffOccurs | src/ngscopeclient/MainWindow_Menus.cpp:624 | `find(...) != npos` holds exactly when the pattern occurs at some position |
| FilterMenus.GenerationNames | src/ngscopeclient/MainWindow_Menus.cpp:612-619 | `sortedNames` holds exactly the generation-category names, strictly ascending |
| FilterMenus.ShortName | src/ngscopeclient/MainWindow_Menus.cpp:627 | the label drops the last seven characters, or keeps a shorter name whole because the unsigned length wraps |
| FilterMenus.ShortNameDropsSuffix | src/ngscopeclient/MainWindow_Menus.cpp:624-627 | a name ending in " Import" is listed, shown as what precedes that suffix |
| FilterMenus.ImportMenu | src/ngscopeclient/MainWindow_Menus.cpp:621-631 | entries are exactly the listed names containing "Import", each shown with its shortened label |
| FilterMenus.GenerateMenu | src/ngscopeclient/MainWindow_Menus.cpp:656-667 | entries are exactly the listed names without "Import" whose filter has no inputs |
| FilterMenus.GenerateMenuSorted | src/ngscopeclient/MainWindow_Menus.cpp:656-667 | filtering keeps the names ascending |
| FilterMenus.ImportMenuSorted | src/ngscopeclient/MainWindow_Menus.cpp:621-631 | the Import entries keep their filter names ascending |
| FilterMenus.BuildGenerateMenu | src/ngscopeclient/MainWindow_Menus.cpp:640-672 | the Generate menu lists exactly the generation filters without "Import" and without inputs, ascending |
| FilterMenus.BuildImportMenu | src/ngscopeclient/MainWindow_Menus.cpp:605-635 | the Import menu lists exactly the generation filters containing "Import", ascending, with shortened labels |
| FilterMenus.MenusDisjoint | src/ngscopeclient/MainWindow_Menus.cpp:624-658 | no filter is offered by both menus |
| MainWindow.AddDialog | src/ngscopeclient/MainWindow_Menus.cpp:66-81 | the dialog is always registered; a meter or generator dialog is stored under its instrument in the matching map, whose other instruments' entries are kept; the other maps are untouched, and keys stay consistent |
| MainWindow.AddDialogIdempotent | src/ngscopeclient/MainWindow_Menus.cpp:66-81 | adding the same dialog twice is the same as adding it once |
| MainWindow.Construct | src/ngscopeclient/MainWindow.h:56-62 | constructing a request adds exactly one reference to its stream's channel and none to any other |
| MainWindow.Copy | src/ngscopeclient/MainWindow.h:64-72 | copying adds exactly one reference (assignment does not exist) |
| MainWindow.Destroy | src/ngscopeclient/MainWindow.h:74-77 | destruction releases exactly one reference |
| MainWindow.Held | src/ngscopeclient/MainWindow.h:276 | the live requests hold one channel reference each |
| MainWindow.QueueSplitGroup | src/ngscopeclient/MainWindow.h:98-99 | one request is appended, and its channel gains net one reference once the temporary is destroyed |
| MainWindow.QueueSplitGroupBalanced | src/ngscopeclient/MainWindow.h:53-99 | queueing keeps every count equal to its starting count plus one per live request |
| MainWindow.CopyAll | src/ngscopeclient/MainWindow.h:64-70 | copying every queued request adds one reference per request |
| MainWindow.DestroyAll | src/ngscopeclient/MainWindow.h:74-77 | destroying every queued request releases one reference per request |
| MainWindow.ReallocationNeutral | src/ngscopeclient/MainWindow.h:64-77 | moving the queue to new storage, by copying then destroying, leaves every count as it was |
| MainWindow.ClearingReleasesAll | src/ngscopeclient/MainWindow.h:74-77 | destroying the whole queue returns every channel to its count before any request |
| MainWindow.ClearPersistence | src/ngscopeclient/MainWindow.h:132-136 | sets both the persistence-clear and redraw flags and leaves the close flag |
| MainWindow.QueueCloseSession | src/ngscopeclient/MainWindow.h:140-141 | sets only the close flag |
| MainWindow.FlagSettersIdempotentAndCommute | src/ngscopeclient/MainWindow.h:129-141 | each flag request is idempotent, and the two requests commute |
| RFGeneratorDialog.SweepTypeIndex | src/ngscopeclient/RFGeneratorDialog.cpp:90-116 | the selected row is in range and the type list at that row is the generator's sweep type |
| RFGeneratorDialog.SweepShapeIndex | src/ngscopeclient/RFGeneratorDialog.cpp:70-77 | the selected row is in range and the shape list at that row is the generator's shape |
| RFGeneratorDialog.SweepSpacingIndex | src/ngscopeclient/RFGeneratorDialog.cpp:80-87 | the selected row is in range and the spacing list at that row is the generator's spacing |
| RFGeneratorDialog.SweepDirectionIndex | src/ngscopeclient/RFGeneratorDialog.cpp:119-126 | the selected row is in range and the direction list at that row is the generator's direction |
| RFGeneratorDialog.IndexRoundTrips | src/ngscopeclient/RFGeneratorDialog.cpp:70-126 | each name list is aligned with its enumeration list, and every row maps back to itself |
| RFGeneratorDialog.NewChannelUIState | src/ngscopeclient/RFGeneratorDialog.cpp:44-127 | the new state's rows are valid and sweep points are copied into both the text and committed values |
| RFGeneratorDialog.UIStateRoundTrip | src/ngscopeclient/RFGeneratorDialog.cpp:45-53 | the committed values and selected enumerations of a new state are exactly the generator's settings |
| RFGeneratorDialog.NewDialogState | src/ngscopeclient/RFGeneratorDialog.cpp:146-147 | one UI state per channel, in channel order, each standing for that channel's settings |
| RFGeneratorDialog.ChannelLockout | src/ngscopeclient/RFGeneratorDialog.cpp:218-249 | level is read-only exactly for LEVEL and FREQ_LEVEL sweeps, and frequency exactly for FREQ and FREQ_LEVEL; both only for FREQ_LEVEL |
| RFGeneratorDialog.SelectSweepType | src/ngscopeclient/RFGeneratorDialog.cpp:264-265 | choosing a Mode row stores it and sends the type at that row, which maps back to that row; nothing else changes |
| RFGeneratorDialog.SelectSweepShape | src/ngscopeclient/RFGeneratorDialog.cpp:279-280 | choosing a Shape row stores it and sends the shape at that row |
| RFGeneratorDialog.SelectSweepSpacing | src/ngscopeclient/RFGeneratorDialog.cpp:283-284 | choosing a Spacing row stores it and sends the spacing at that row |
| RFGeneratorDialog.SelectSweepDirection | src/ngscopeclient/RFGeneratorDialog.cpp:287-288 | choosing a Direction row stores it and sends the direction at that row |
| FunctionGeneratorDialog.ShapeIndex | src/ngscopeclient/FunctionGeneratorDialog.cpp:78-86 | the row is the last position of the current shape (no break), or 0 when it is not offered; one name per shape, in order |
| FunctionGeneratorDialog.ImpedanceIndex | src/ngscopeclient/FunctionGeneratorDialog.cpp:88-91 | the selected row is in range and the impedance list at that row is the channel's impedance |
| FunctionGeneratorDialog.ImpedanceRoundTrip | src/ngscopeclient/FunctionGeneratorDialog.cpp:96-99 | the two impedance rows map back to themselves, and the name list is aligned |
| FunctionGeneratorDialog.NewChannelUIState | src/ngscopeclient/FunctionGeneratorDialog.cpp:54-93 | the new state stands for the channel: committed values copied, shape and impedance rows selecting the channel's settings |
| FunctionGeneratorDialog.NewDialogState | src/ngscopeclient/FunctionGeneratorDialog.cpp:54-94 | one UI state per function channel, in channel order |
| FunctionGeneratorDialog.ChannelControls | src/ngscopeclient/FunctionGeneratorDialog.cpp:157-232 | the impedance combo appears exactly with impedance controls and the edge-time inputs exactly with rise/fall controls; duty cycle appears with its controls and is editable exactly for pulse, square and non-standard PRBS |
| FunctionGeneratorDialog.SelectShape | src/ngscopeclient/FunctionGeneratorDialog.cpp:187-188 | choosing a Waveform row stores it and sends the offered shape at that row |
| FunctionGeneratorDialog.SelectImpedance | src/ngscopeclient/FunctionGeneratorDialog.cpp:166-167 | choosing an impedance row stores it and sends the impedance at that row |
| FunctionGeneratorDialog.ApplyEdgeAsWritten | src/ngscopeclient/FunctionGeneratorDialog.cpp:223-232 | each edge input commits the parsed text into its own value and sends that value, but both write the rise-time text; the other edge's value and every other field are unchanged |
| FunctionGeneratorDialog.FallTimeEditsRiseBuffer | src/ngscopeclient/FunctionGeneratorDialog.cpp:230-231 | the fall-time input shows the rise-time text, and applying a fall time leaves the rise-time input showing an uncommitted value |
| FunctionGeneratorDialog.ApplyEdge | src/ngscopeclient/FunctionGeneratorDialog.cpp:223-232 | intended: each input shows, commits and sends its own edge time, and nothing else in the record changes |
| FunctionGeneratorDialog.ApplyEdgeKeepsOther | src/ngscopeclient/FunctionGeneratorDialog.cpp:223-232 | intended: applying one edge time leaves the other input's text and value unchanged |
| Connect.DoConnect | src/ngscopeclient/AddRFGeneratorDialog.cpp:62-99 | success exactly when a connected transport and a driver exist; each failure shows exactly one popup of its kind; on success the generator is added once, with the nickname |
| Connect.DoConnectOwnership | src/ngscopeclient/AddRFGeneratorDialog.cpp:75-98 | a created transport is deleted exactly once on failure, and handed to the session undeleted on success |
| Connect.ConnectRecent | src/ngscopeclient/MainWindow_Menus.cpp:221-242 | a menu item with no transport does nothing; a failed driver shows one popup; otherwise the instrument is added once with the entry's nickname |
| Connect.ConnectRecentOwnership | src/ngscopeclient/MainWindow_Menus.cpp:221-242 | the menu path deletes the transport exactly once on driver failure and never on success |
| Connect.MenuSilentDialogNot | src/ngscopeclient/MainWindow_Menus.cpp:221-222 | without a transport the menu item is silent, whereas the dialog shows a popup |

## Left out

- Rendering is not modelled. This covers all ImGui/GLFW/Vulkan drawing, menu widgets, popup contents and the `DoRender` bodies: they are UI side effects with no statable result. Popups appear only as titled events in `Connect`.
- `explode`, `MakeTransport`, `CreateTransport`, `IsConnected`, the drivers' `EnumDrivers`/`Create*` factories and `GetNameOfShape` are parameters, because their code is not part of this model.
  - `explode`'s handling of empty fields is not visible. So `PathKeepsColons` takes "joining the fields gives back the string" as a hypothesis, and `Strings.Split` is only a reference splitter.
- `Unit::PrettyPrint`, the unit parsers and all `double`/`float` settings are left out. The settings are `real` values that are only copied; the formatter and parser are function parameters.
- The transport's own lifetime after ownership passes to a driver is left out; only deletion events are modelled.
- Mutexes, atomics, the connection-state classes and the thread-argument structs are left out: their point is concurrency.
- `HistoryPoint::~HistoryPoint` pool recycling and `LoadHistoryToSession` are left out. They are dynamic_cast-driven memory management and mutation through instrument APIs outside this model.
- `src/glscopeclient/PreferenceManager.h`, `src/glscopeclient/Timeline.h` and `src/ngscopeclient/ngscopeclient.h` are not part of this model: they are declarations, a GTK widget whose logic lives elsewhere, and thread argument structs.
- Shared pointers are modelled as values or numeric identities. `AddDialog`'s `std::set` of shared pointers becomes a set of dialog values.
- `Session.GetNextMarkerName`: the counter `m_nextMarkerNum` is unbounded here. Overflowing the C++ `int` after 2^31 - 1 markers is undefined behaviour and is not modelled. `Session.SuccessiveMarkerNamesDistinct` relies on this.
- `RFGeneratorDialog.SweepTypeIndex`: the C++ switch has no default, so an unknown sweep type would leave `m_sweepType` uninitialised. The enumeration here has exactly the four listed types.
- The sweep shape, spacing and direction enumerations are modelled with exactly their two listed values. The "anything else selects row 0" branch therefore covers only the first value.
- `FunctionGeneratorDialog.ChannelControls` requires a valid shape row when duty-cycle controls exist. The C++ indexes `m_waveShapes[m_shapeIndex]` unchecked, which is undefined for an empty shape list.
- `FunctionGeneratorDialog.WaveShape` names only the shapes the dialog treats specially; every other shape is `OtherShape`.
- `History.StreamsOf` keys streams by (channel index, stream number), where the C++ uses the channel pointer.
- `Connect.ConnectRecent` models the function generator menu. The meter, PSU and RF generator menus (MainWindow_Menus.cpp:255-325, 401-543) follow the same steps with different factories. The scope menu differs in two ways: it accepts entries with 3 fields (MainWindow_Menus.cpp:352), which `RecentInstruments.MinFields` models, and it calls `m_session.ApplyPreferences(scope)` before naming and adding the scope (MainWindow_Menus.cpp:384), which is not modelled because preferences are outside this model.
- `FilterMenus.GenerationNames`, `FilterMenus.BuildGenerateMenu` and `FilterMenus.BuildImportMenu` assume every reference filter is non-null: `refs` maps names to `FilterInfo`, not to an optional. In the C++ program `Session::GetReferenceFilter` inserts `nullptr` for an unknown name (Session.h:405-406, modelled by `Session.GetReferenceFilter`), and the menus then dereference every entry without a check (`GetCategory()` at MainWindow_Menus.cpp:615 and 650, `GetInputCount()` at 663). That null dereference is not modelled.
- `FilterMenus.ShortName` and `Strings.Contains` count characters. The C++ `fname.size()` and `strlen(" Import")` (MainWindow_Menus.cpp:627) count bytes, so the two differ on names containing non-ASCII UTF-8 characters.
- `Session.GetMarkers` returns the list by value. The C++ returns a mutable `std::vector<Marker>&` (Session.h:376-377) that callers could modify in place; writes through that reference are not modelled.
- `RecentInstruments.ItemsAt` lists an entry only once its menu item is drawn; which item the user clicks is not modelled.

## Findings

| source | as written | input that shows it | evidently intended | confidence | as-written member | corrected member |
|---|---|---|---|---|---|---|
| src/ngscopeclient/HistoryManager.cpp:189-207 | `deletedSomething` is never set to true, so the eviction loop stops after one scan and at most one point is evicted per call | depth 1, history [p1, p2] with both unpinned and unmarked, one new waveform: three points, one eviction, two remain | keep evicting until the list is within `m_maxDepth` or only pinned and marked points remain | high (not executed) | History.OnlyOneEvictionPerCall | History.CorrectedEvictionReachesBound |
| src/ngscopeclient/HistoryManager.cpp:139-157 | the `break` leaves only the stream loop, so a later channel with data overwrites the timestamp, despite the comment "find first waveform" | one scope whose two channels hold waveforms with start times T1 ≠ T2: the point is stamped T2 | stamp the point with the first waveform found | medium (not executed) | History.LaterChannelOverwrites | History.FirstChannelTimeSpec |
| src/ngscopeclient/FunctionGeneratorDialog.cpp:230-231 | the "Fall Time" input is bound to the `m_riseTime` text buffer while committing into `m_committedFallTime` | rise text "1 ns" and fall text "3 ns": the Fall Time box shows "1 ns"; applying "2 ns" there changes the Rise Time box to "2 ns" while the committed rise time stays 1 ns | bind the Fall Time input to `m_fallTime` | high (not executed) | FunctionGeneratorDialog.FallTimeEditsRiseBuffer | FunctionGeneratorDialog.ApplyEdgeKeepsOther |
