/**
  Zone accounting: which tracked object is in which zone, and what was counted when it moved.

  Detections are inputs: a track id and the centre of its box. The dictionaries that default to zero or
  to an empty list are maps read through `Count` and `Samples`.
*/
module ZoneTracker {
  import opened Prelude
  import opened Polygon

  type Track = int
  type Zone = int

  datatype Detection = Detection(track: Track, center: Point)

  datatype State = State(
    zones: seq<seq<Point>>,
    live: map<Zone, int>,                      // zone_counts, of the last processed frame
    status: map<Track, Option<Zone>>,          // object_zone_status
    entryTimes: map<Track, map<Zone, real>>,   // object_entry_times
    entries: map<Zone, int>,                   // zone_total_entries
    exits: map<Zone, int>,                     // zone_total_exits
    dwell: map<Zone, seq<real>>)               // object_dwell_times

  const INIT := State([], map[], map[], map[], map[], map[], map[])

  function Count(m: map<Zone, int>, z: Zone): int {
    if z in m then m[z] else 0
  }

  function Samples(m: map<Zone, seq<real>>, z: Zone): seq<real> {
    if z in m then m[z] else []
  }

  function StatusOf(s: State, t: Track): Option<Zone> {
    if t in s.status then s.status[t] else None
  }

  // ---------- where a detection is ----------

  predicate ZonesDrawn(zones: seq<seq<Point>>) {
    forall i :: 0 <= i < |zones| ==> |zones[i]| >= 3
  }

  /** The first zone, in the order they were added, that the point is inside. */
  function Locate(zones: seq<seq<Point>>, p: Point, from: nat): (z: Option<Zone>)
    requires ZonesDrawn(zones) && from <= |zones|
    ensures match z
      case Some(k) =>
        && from <= k < |zones| && Inside(p, zones[k])
        && forall i :: from <= i < k ==> !Inside(p, zones[i])
      case None => forall i :: from <= i < |zones| ==> !Inside(p, zones[i])
    decreases |zones| - from
  {
    if from == |zones| then None
    else if Inside(p, zones[from]) then Some(from)
    else Locate(zones, p, from + 1)
  }

  // ---------- one detection ----------

  function Leave(s: State, t: Track, z: Zone, now: real): State
    requires t in s.entryTimes
  {
    var s1 := s.(exits := s.exits[z := Count(s.exits, z) + 1]);
    if z in s.entryTimes[t] then
      s1.(dwell := s.dwell[z := Samples(s.dwell, z) + [now - s.entryTimes[t][z]]],
          entryTimes := s.entryTimes[t := s.entryTimes[t] - {z}])
    else s1
  }

  function Enter(s: State, t: Track, z: Zone, now: real): State
    requires t in s.entryTimes
  {
    s.(entries := s.entries[z := Count(s.entries, z) + 1],
       entryTimes := s.entryTimes[t := s.entryTimes[t][z := now]])
  }

  /** The exit of the previous zone and the entry of the current one, when they differ. */
  function Move(s: State, t: Track, previous: Option<Zone>, current: Option<Zone>, now: real): (r: State)
    requires t in s.entryTimes
    ensures r.zones == s.zones && r.live == s.live && r.status == s.status
  {
    if current == previous then s
    else
      var left := if previous.Some? then Leave(s, t, previous.value, now) else s;
      if current.Some? then Enter(left, t, current.value, now) else left
  }

  /** The detection makes the track known and counts it where it is. */
  function Counted(s: State, t: Track, current: Option<Zone>): (r: State)
    ensures r.zones == s.zones && r.status == s.status && t in r.entryTimes
    ensures forall z :: Count(r.live, z) == Count(s.live, z) + (if current == Some(z) then 1 else 0)
  {
    s.(entryTimes := if t in s.entryTimes then s.entryTimes else s.entryTimes[t := map[]],
       live := if current.Some? then s.live[current.value := Count(s.live, current.value) + 1] else s.live)
  }

  function Observed(s: State, t: Track, current: Option<Zone>, now: real): (r: State)
    ensures r.zones == s.zones && r.status == s.status[t := current]
    ensures r.live == Counted(s, t, current).live
  {
    Move(Counted(s, t, current), t, StatusOf(s, t), current, now).(status := s.status[t := current])
  }

  // ---------- one frame ----------

  function Seen(s: State, detections: seq<Detection>, now: real): (r: State)
    requires ZonesDrawn(s.zones)
    ensures r.zones == s.zones
    decreases |detections|
  {
    if detections == [] then s
    else
      var n := |detections| - 1;
      Observed(Seen(s, detections[..n], now), detections[n].track, Locate(s.zones, detections[n].center, 0), now)
  }

  lemma SeenNext(s: State, detections: seq<Detection>, n: nat, now: real)
    requires ZonesDrawn(s.zones) && n < |detections|
    ensures Seen(s, detections[..n + 1], now) ==
      Observed(Seen(s, detections[..n], now), detections[n].track, Locate(s.zones, detections[n].center, 0), now)
  {
    assert detections[..n + 1][..n] == detections[..n];
  }

  /** The live counts of the first n zones set to zero. */
  function Reset(live: map<Zone, int>, n: nat): (r: map<Zone, int>)
    ensures forall z :: 0 <= z < n ==> z in r && r[z] == 0
  {
    if n == 0 then live else Reset(live, n - 1)[n - 1 := 0]
  }

  function Framed(s: State, detections: seq<Detection>, now: real): State
    requires ZonesDrawn(s.zones)
  {
    Seen(s.(live := Reset(s.live, |s.zones|)), detections, now)
  }

  datatype Event =
    | AddZone(points: seq<Point>)
    | Frame(detections: seq<Detection>, now: real)

  function Apply(s: State, e: Event): State
    requires ZonesDrawn(s.zones)
  {
    match e
    case AddZone(points) => if |points| < 3 then s else s.(zones := s.zones + [points])
    case Frame(detections, now) => Framed(s, detections, now)
  }

  function After(s: State, events: seq<Event>): (r: State)
    requires ZonesDrawn(s.zones)
    ensures ZonesDrawn(r.zones)
    decreases |events|
  {
    if events == [] then s
    else After(Apply(s, events[0]), events[1..])
  }

  // ---------- the invariant ----------

  ghost function Occupants(status: map<Track, Option<Zone>>, z: Zone): set<Track> {
    set t | t in status && status[t] == Some(z)
  }

  function Only(z: Option<Zone>): set<Zone> {
    match z case None => {} case Some(k) => {k}
  }

  /** A track has an entry time for its current zone and for no other. */
  ghost predicate TimesMatch(s: State) {
    && s.entryTimes.Keys == s.status.Keys
    && forall t :: t in s.status ==> s.entryTimes[t].Keys == Only(s.status[t])
  }

  ghost predicate ZoneBalanced(s: State, z: Zone) {
    && Count(s.entries, z) - Count(s.exits, z) == |Occupants(s.status, z)|
    && |Samples(s.dwell, z)| == Count(s.exits, z)
  }

  ghost predicate Balanced(s: State) {
    TimesMatch(s) && forall z :: ZoneBalanced(s, z)
  }

  lemma OccupantsMove(status: map<Track, Option<Zone>>, t: Track, current: Option<Zone>, z: Zone)
    ensures var previous := if t in status then status[t] else None;
      |Occupants(status[t := current], z)| == |Occupants(status, z)|
        - (if previous == Some(z) then 1 else 0) + (if current == Some(z) then 1 else 0)
  {
    var before, after := Occupants(status, z), Occupants(status[t := current], z);
    var rest := before - {t};
    assert before == if t in before then rest + {t} else rest;
    assert after == if current == Some(z) then rest + {t} else rest;
  }

  lemma MoveTimes(s: State, t: Track, previous: Option<Zone>, current: Option<Zone>, now: real)
    requires t in s.entryTimes && s.entryTimes[t].Keys == Only(previous)
    ensures var times := Move(s, t, previous, current, now).entryTimes;
      && times.Keys == s.entryTimes.Keys
      && times[t].Keys == Only(current)
      && forall u :: u in times && u != t ==> times[u] == s.entryTimes[u]
  {
  }

  lemma ObservedTimes(s: State, t: Track, current: Option<Zone>, now: real)
    requires TimesMatch(s)
    ensures TimesMatch(Observed(s, t, current, now))
  {
    var known, after := Counted(s, t, current), Observed(s, t, current, now);
    assert known.entryTimes[t].Keys == Only(StatusOf(s, t));
    MoveTimes(known, t, StatusOf(s, t), current, now);
    forall u | u in after.status ensures after.entryTimes[u].Keys == Only(after.status[u]) {
      if u != t {
        assert known.entryTimes[u] == s.entryTimes[u];
      }
    }
  }

  lemma ObservedZone(s: State, t: Track, current: Option<Zone>, now: real, z: Zone)
    requires TimesMatch(s) && ZoneBalanced(s, z)
    ensures ZoneBalanced(Observed(s, t, current, now), z)
  {
    OccupantsMove(s.status, t, current, z);
    if t in s.status {
      assert s.entryTimes[t].Keys == Only(s.status[t]);
    }
  }

  lemma ObservedBalanced(s: State, t: Track, current: Option<Zone>, now: real)
    requires Balanced(s)
    ensures Balanced(Observed(s, t, current, now))
  {
    ObservedTimes(s, t, current, now);
    forall z ensures ZoneBalanced(Observed(s, t, current, now), z) {
      assert ZoneBalanced(s, z);
      ObservedZone(s, t, current, now, z);
    }
  }

  lemma {:induction false} SeenBalanced(s: State, detections: seq<Detection>, now: real)
    requires ZonesDrawn(s.zones) && Balanced(s)
    ensures Balanced(Seen(s, detections, now))
    decreases |detections|
  {
    if detections == [] {
    } else {
      var n := |detections| - 1;
      SeenBalanced(s, detections[..n], now);
      ObservedBalanced(Seen(s, detections[..n], now), detections[n].track,
                       Locate(s.zones, detections[n].center, 0), now);
    }
  }

  lemma BalancedIgnores(s: State, s': State)
    requires Balanced(s) && s' == s.(zones := s'.zones, live := s'.live)
    ensures Balanced(s')
  {
    forall z ensures ZoneBalanced(s', z) {
      assert ZoneBalanced(s, z);
    }
  }

  lemma {:induction false} BalancedRun(s: State, events: seq<Event>)
    requires ZonesDrawn(s.zones) && Balanced(s)
    ensures Balanced(After(s, events))
    decreases |events|
  {
    if events == [] {
    } else {
      var e := events[0];
      match e {
        case AddZone(_) => BalancedIgnores(s, Apply(s, e));
        case Frame(detections, now) =>
          var cleared := s.(live := Reset(s.live, |s.zones|));
          BalancedIgnores(s, cleared);
          SeenBalanced(cleared, detections, now);
      }
      BalancedRun(Apply(s, e), events[1..]);
    }
  }

  /** Over every sequence of frames with zones only added: in each zone, entries minus exits is the
      number of tracks whose status is that zone, every exit left one dwell sample, and each track's
      entry times are for its current zone alone. */
  lemma ZonesAreAccounted(events: seq<Event>, z: Zone, t: Track)
    ensures var s := After(INIT, events);
      && Count(s.entries, z) - Count(s.exits, z) == |Occupants(s.status, z)|
      && |Samples(s.dwell, z)| == Count(s.exits, z)
      && (t in s.entryTimes <==> t in s.status)
      && (t in s.status ==> s.entryTimes[t].Keys == Only(s.status[t]))
  {
    forall k ensures ZoneBalanced(INIT, k) {
      assert Occupants(INIT.status, k) == {};
    }
    BalancedRun(INIT, events);
    assert ZoneBalanced(After(INIT, events), z);
  }

  function If<T(==)>(b: bool, x: T): set<T> {
    if b then {x} else {}
  }

  // ---------- entries, exits and dwell times, from the observations alone ----------

  /** One detection: which track, in which zone, when. */
  datatype Observation = Observation(track: Track, at: Option<Zone>, time: real)

  function Observing(zones: seq<seq<Point>>, detections: seq<Detection>, now: real): (obs: seq<Observation>)
    requires ZonesDrawn(zones)
    ensures |obs| == |detections|
  {
    if detections == [] then []
    else
      var n := |detections| - 1;
      Observing(zones, detections[..n], now)
        + [Observation(detections[n].track, Locate(zones, detections[n].center, 0), now)]
  }

  /** All detections of a run, in order, located in the zones there were. */
  function Observations(zones: seq<seq<Point>>, events: seq<Event>): seq<Observation>
    requires ZonesDrawn(zones)
    decreases |events|
  {
    if events == [] then []
    else match events[0]
      case AddZone(points) => Observations(if |points| < 3 then zones else zones + [points], events[1..])
      case Frame(detections, now) => Observing(zones, detections, now) + Observations(zones, events[1..])
  }

  /** Where the track was observed last, if ever. */
  function LastSeen(obs: seq<Observation>, t: Track): Option<Zone> {
    if obs == [] then None
    else if obs[|obs| - 1].track == t then obs[|obs| - 1].at
    else LastSeen(obs[..|obs| - 1], t)
  }

  /** Observation i finds its track in the zone, where it was not when it was observed before. */
  predicate EntersAt(obs: seq<Observation>, i: nat, z: Zone)
    requires i < |obs|
  {
    obs[i].at == Some(z) && LastSeen(obs[..i], obs[i].track) != Some(z)
  }

  /** Observation i finds its track elsewhere, after it was in the zone when it was observed before. */
  predicate LeavesAt(obs: seq<Observation>, i: nat, z: Zone)
    requires i < |obs|
  {
    obs[i].at != Some(z) && LastSeen(obs[..i], obs[i].track) == Some(z)
  }

  ghost function EntriesOf(obs: seq<Observation>, z: Zone): set<nat> {
    set i: nat | i < |obs| && EntersAt(obs, i, z)
  }

  ghost function ExitsOf(obs: seq<Observation>, z: Zone): set<nat> {
    set i: nat | i < |obs| && LeavesAt(obs, i, z)
  }

  /** When the track last entered the zone. */
  function EntryTime(obs: seq<Observation>, t: Track, z: Zone): real {
    if obs == [] then 0.0
    else
      var n := |obs| - 1;
      if obs[n].track == t && EntersAt(obs, n, z) then obs[n].time else EntryTime(obs[..n], t, z)
  }

  /** For each exit, in order, the time since the entry it ends. */
  function DwellTimes(obs: seq<Observation>, z: Zone): seq<real> {
    if obs == [] then []
    else
      var n := |obs| - 1;
      DwellTimes(obs[..n], z)
        + if LeavesAt(obs, n, z) then [obs[n].time - EntryTime(obs[..n], obs[n].track, z)] else []
  }

  lemma EntriesSnoc(obs: seq<Observation>, o: Observation, z: Zone)
    ensures var longer := obs + [o];
      && EntriesOf(longer, z) == EntriesOf(obs, z) + If(EntersAt(longer, |obs|, z), |obs|)
      && ExitsOf(longer, z) == ExitsOf(obs, z) + If(LeavesAt(longer, |obs|, z), |obs|)
      && |obs| !in EntriesOf(obs, z) && |obs| !in ExitsOf(obs, z)
  {
    var longer := obs + [o];
    assert longer[..|obs|] == obs;
    forall i: nat | i < |obs|
      ensures EntersAt(longer, i, z) == EntersAt(obs, i, z) && LeavesAt(longer, i, z) == LeavesAt(obs, i, z)
    {
      assert longer[..i] == obs[..i] && longer[i] == obs[i];
    }
  }

  lemma ObservationSnoc(obs: seq<Observation>, o: Observation, t: Track, z: Zone)
    ensures var longer := obs + [o];
      && LastSeen(longer, t) == (if o.track == t then o.at else LastSeen(obs, t))
      && EntersAt(longer, |obs|, z) == (o.at == Some(z) && LastSeen(obs, o.track) != Some(z))
      && LeavesAt(longer, |obs|, z) == (o.at != Some(z) && LastSeen(obs, o.track) == Some(z))
      && EntryTime(longer, t, z) ==
         (if o.track == t && EntersAt(longer, |obs|, z) then o.time else EntryTime(obs, t, z))
      && DwellTimes(longer, z) == DwellTimes(obs, z)
         + if LeavesAt(longer, |obs|, z) then [o.time - EntryTime(obs, o.track, z)] else []
  {
    assert (obs + [o])[..|obs|] == obs;
  }

  /** One observation: it counts an entry when it finds the track in the zone and it was not there, an exit
      when it was and is not; a track that stays where it is changes neither. */
  lemma ObservedCounts(s: State, t: Track, current: Option<Zone>, now: real, z: Zone)
    ensures var r, previous := Observed(s, t, current, now), StatusOf(s, t);
      && StatusOf(r, t) == current
      && Count(r.entries, z) == Count(s.entries, z) + (if current == Some(z) != previous then 1 else 0)
      && Count(r.exits, z) == Count(s.exits, z) + (if previous == Some(z) != current then 1 else 0)
  {
  }

  lemma ObservedDwell(s: State, t: Track, current: Option<Zone>, now: real, z: Zone)
    requires TimesMatch(s)
    ensures var r, previous := Observed(s, t, current, now), StatusOf(s, t);
      && (previous == Some(z) ==> t in s.entryTimes && z in s.entryTimes[t])
      && Samples(r.dwell, z) == Samples(s.dwell, z)
         + (if previous == Some(z) != current then [now - s.entryTimes[t][z]] else [])
  {
    if t in s.status {
      assert s.entryTimes[t].Keys == Only(s.status[t]);
    }
  }

  lemma ObservedEntryTime(s: State, t: Track, z: Zone, now: real)
    requires TimesMatch(s)
    ensures var r, previous := Observed(s, t, Some(z), now), StatusOf(s, t);
      && (previous == Some(z) ==> t in s.entryTimes && z in s.entryTimes[t])
      && t in r.entryTimes && z in r.entryTimes[t]
      && r.entryTimes[t][z] == if previous == Some(z) then s.entryTimes[t][z] else now
  {
    if t in s.status {
      assert s.entryTimes[t].Keys == Only(s.status[t]);
    }
  }

  lemma ObservedOthers(s: State, t: Track, current: Option<Zone>, now: real, u: Track)
    requires u != t
    ensures var r := Observed(s, t, current, now);
      && StatusOf(r, u) == StatusOf(s, u)
      && (u in r.entryTimes <==> u in s.entryTimes)
      && (u in s.entryTimes ==> r.entryTimes[u] == s.entryTimes[u])
  {
  }

  /** The counters of a zone are those of the observations so far. */
  ghost predicate TellsZone(s: State, obs: seq<Observation>, z: Zone) {
    && Count(s.entries, z) == |EntriesOf(obs, z)|
    && Count(s.exits, z) == |ExitsOf(obs, z)|
    && Samples(s.dwell, z) == DwellTimes(obs, z)
  }

  /** So are status and entry time of a track. */
  predicate TellsTrack(s: State, obs: seq<Observation>, t: Track) {
    && StatusOf(s, t) == LastSeen(obs, t)
    && (StatusOf(s, t).Some? ==>
          (var z := StatusOf(s, t).value;
           t in s.entryTimes && z in s.entryTimes[t] && s.entryTimes[t][z] == EntryTime(obs, t, z)))
  }

  ghost predicate Tells(s: State, obs: seq<Observation>) {
    TimesMatch(s) && (forall z :: TellsZone(s, obs, z)) && forall t :: TellsTrack(s, obs, t)
  }

  lemma TellsCountsStep(s: State, obs: seq<Observation>, o: Observation, z: Zone)
    requires TellsZone(s, obs, z) && TellsTrack(s, obs, o.track)
    ensures var r := Observed(s, o.track, o.at, o.time);
      && Count(r.entries, z) == |EntriesOf(obs + [o], z)|
      && Count(r.exits, z) == |ExitsOf(obs + [o], z)|
  {
    ObservedCounts(s, o.track, o.at, o.time, z);
    ObservationSnoc(obs, o, o.track, z);
    EntriesSnoc(obs, o, z);
  }

  lemma TellsDwellStep(s: State, obs: seq<Observation>, o: Observation, z: Zone)
    requires TimesMatch(s) && TellsZone(s, obs, z) && TellsTrack(s, obs, o.track)
    ensures Samples(Observed(s, o.track, o.at, o.time).dwell, z) == DwellTimes(obs + [o], z)
  {
    ObservedDwell(s, o.track, o.at, o.time, z);
    ObservationSnoc(obs, o, o.track, z);
  }

  lemma TellsZoneStep(s: State, obs: seq<Observation>, o: Observation, z: Zone)
    requires TimesMatch(s) && TellsZone(s, obs, z) && TellsTrack(s, obs, o.track)
    ensures TellsZone(Observed(s, o.track, o.at, o.time), obs + [o], z)
  {
    TellsCountsStep(s, obs, o, z);
    TellsDwellStep(s, obs, o, z);
  }

  lemma TellsTrackStep(s: State, obs: seq<Observation>, o: Observation, t: Track)
    requires TimesMatch(s) && TellsTrack(s, obs, t)
    ensures TellsTrack(Observed(s, o.track, o.at, o.time), obs + [o], t)
  {
    var z := if o.track == t then o.at else StatusOf(s, t);
    ObservationSnoc(obs, o, t, if z.Some? then z.value else 0);
    if o.track != t {
      ObservedOthers(s, o.track, o.at, o.time, t);
    } else if z.Some? {
      ObservedEntryTime(s, t, z.value, o.time);
    }
  }

  lemma TellsStep(s: State, obs: seq<Observation>, o: Observation)
    requires Tells(s, obs)
    ensures Tells(Observed(s, o.track, o.at, o.time), obs + [o])
  {
    var r := Observed(s, o.track, o.at, o.time);
    ObservedTimes(s, o.track, o.at, o.time);
    assert TellsTrack(s, obs, o.track);
    forall z ensures TellsZone(r, obs + [o], z) {
      assert TellsZone(s, obs, z);
      TellsZoneStep(s, obs, o, z);
    }
    forall t ensures TellsTrack(r, obs + [o], t) {
      assert TellsTrack(s, obs, t);
      TellsTrackStep(s, obs, o, t);
    }
  }

  lemma SeenLast(s: State, detections: seq<Detection>, now: real) returns (o: Observation)
    requires ZonesDrawn(s.zones) && detections != []
    ensures var init := detections[..|detections| - 1];
      && Seen(s, detections, now) == Observed(Seen(s, init, now), o.track, o.at, o.time)
      && Observing(s.zones, detections, now) == Observing(s.zones, init, now) + [o]
  {
    var d := detections[|detections| - 1];
    o := Observation(d.track, Locate(s.zones, d.center, 0), now);
  }

  lemma {:induction false} TellsFrame(s: State, obs: seq<Observation>, detections: seq<Detection>, now: real)
    requires ZonesDrawn(s.zones) && Tells(s, obs)
    ensures Tells(Seen(s, detections, now), obs + Observing(s.zones, detections, now))
    decreases |detections|
  {
    if detections == [] {
      assert obs + [] == obs;
    } else {
      var init := detections[..|detections| - 1];
      TellsFrame(s, obs, init, now);
      var o := SeenLast(s, detections, now);
      TellsOneMore(Seen(s, init, now), obs, Observing(s.zones, init, now), o);
    }
  }

  lemma TellsOneMore(s: State, obs: seq<Observation>, more: seq<Observation>, o: Observation)
    requires Tells(s, obs + more)
    ensures Tells(Observed(s, o.track, o.at, o.time), obs + (more + [o]))
  {
    TellsStep(s, obs + more, o);
    assert obs + more + [o] == obs + (more + [o]);
  }

  lemma TellsIgnores(s: State, s': State, obs: seq<Observation>)
    requires Tells(s, obs) && s' == s.(zones := s'.zones, live := s'.live)
    ensures Tells(s', obs)
  {
    forall z ensures TellsZone(s', obs, z) {
      assert TellsZone(s, obs, z);
    }
    forall t ensures TellsTrack(s', obs, t) {
      assert TellsTrack(s, obs, t);
    }
  }

  lemma {:induction false} TellsRun(s: State, obs: seq<Observation>, events: seq<Event>)
    requires ZonesDrawn(s.zones) && Tells(s, obs)
    ensures Tells(After(s, events), obs + Observations(s.zones, events))
    decreases |events|
  {
    if events == [] {
      assert obs + [] == obs;
    } else {
      var e, rest := events[0], events[1..];
      match e
      case AddZone(_) =>
        TellsIgnores(s, Apply(s, e), obs);
        TellsRun(Apply(s, e), obs, rest);
      case Frame(detections, now) =>
        var cleared := s.(live := Reset(s.live, |s.zones|));
        var seen := Observing(s.zones, detections, now);
        TellsIgnores(s, cleared, obs);
        TellsFrame(cleared, obs, detections, now);
        TellsRun(Apply(s, e), obs + seen, rest);
        assert obs + seen + Observations(s.zones, rest) == obs + (seen + Observations(s.zones, rest));
    }
  }

  /** After every run the entries of a zone are the observations that find a track there which was elsewhere,
      or not seen, before; the exits those that find it elsewhere after it was there; and the dwell times, in
      order, are for each exit the time since the entry it ends. A track that stays is counted no more. */
  lemma EntriesAndExits(events: seq<Event>, z: Zone, t: Track)
    ensures var s, obs := After(INIT, events), Observations([], events);
      && Count(s.entries, z) == |EntriesOf(obs, z)|
      && Count(s.exits, z) == |ExitsOf(obs, z)|
      && Samples(s.dwell, z) == DwellTimes(obs, z)
      && StatusOf(s, t) == LastSeen(obs, t)
  {
    forall k ensures TellsZone(INIT, [], k) {
      assert EntriesOf([], k) == {} && ExitsOf([], k) == {};
    }
    forall u ensures TellsTrack(INIT, [], u) {
    }
    TellsRun(INIT, [], events);
    assert TellsZone(After(INIT, events), [] + Observations([], events), z);
    assert TellsTrack(After(INIT, events), [] + Observations([], events), t);
    assert [] + Observations([], events) == Observations([], events);
  }

  // ---------- the live counts ----------

  /** The detections of the frame that lie in the zone. */
  ghost function Detected(zones: seq<seq<Point>>, detections: seq<Detection>, z: Zone): set<int>
    requires ZonesDrawn(zones)
  {
    set i | 0 <= i < |detections| && Locate(zones, detections[i].center, 0) == Some(z)
  }

  /** The tracks of these detections. */
  ghost function Found(zones: seq<seq<Point>>, detections: seq<Detection>, z: Zone): set<Track>
    requires ZonesDrawn(zones)
  {
    set i | 0 <= i < |detections| && Locate(zones, detections[i].center, 0) == Some(z) :: detections[i].track
  }

  /** Some track detected in the zone is detected again, anywhere, later in the frame. */
  ghost predicate Repeats(zones: seq<seq<Point>>, detections: seq<Detection>, z: Zone)
    requires ZonesDrawn(zones)
  {
    exists i, j :: 0 <= i < j < |detections| && RepeatAt(zones, detections, z, i, j)
  }

  predicate LastIsIn(zones: seq<seq<Point>>, detections: seq<Detection>, z: Zone)
    requires ZonesDrawn(zones) && detections != []
  {
    Locate(zones, detections[|detections| - 1].center, 0) == Some(z)
  }

  lemma DetectedSnoc(zones: seq<seq<Point>>, detections: seq<Detection>, z: Zone)
    requires ZonesDrawn(zones) && detections != []
    ensures var n := |detections| - 1;
      && Detected(zones, detections, z) == Detected(zones, detections[..n], z) + If(LastIsIn(zones, detections, z), n)
      && n !in Detected(zones, detections[..n], z)
  {
  }

  lemma FoundSnoc(zones: seq<seq<Point>>, detections: seq<Detection>, z: Zone)
    requires ZonesDrawn(zones) && detections != []
    ensures var n := |detections| - 1;
      Found(zones, detections, z) ==
      Found(zones, detections[..n], z) + If(LastIsIn(zones, detections, z), detections[n].track)
  {
  }

  lemma FoundAt(zones: seq<seq<Point>>, detections: seq<Detection>, z: Zone, t: Track) returns (i: int)
    requires ZonesDrawn(zones) && t in Found(zones, detections, z)
    ensures 0 <= i < |detections| && Locate(zones, detections[i].center, 0) == Some(z) && detections[i].track == t
  {
    i :| 0 <= i < |detections| && Locate(zones, detections[i].center, 0) == Some(z) && detections[i].track == t;
  }

  /** Detection i lies in the zone and detection j is of the same track. */
  predicate RepeatAt(zones: seq<seq<Point>>, detections: seq<Detection>, z: Zone, i: int, j: int)
    requires ZonesDrawn(zones) && 0 <= i < j < |detections|
  {
    Locate(zones, detections[i].center, 0) == Some(z) && detections[j].track == detections[i].track
  }

  lemma RepeatsSnoc(zones: seq<seq<Point>>, detections: seq<Detection>, z: Zone)
    requires ZonesDrawn(zones) && detections != []
    ensures var n := |detections| - 1;
      Repeats(zones, detections, z) <==>
        Repeats(zones, detections[..n], z) || detections[n].track in Found(zones, detections[..n], z)
  {
    var n, init := |detections| - 1, detections[..|detections| - 1];
    if Repeats(zones, detections, z) {
      var i, j :| 0 <= i < j < |detections| && RepeatAt(zones, detections, z, i, j);
      assert init[i] == detections[i];
      if j < n {
        assert RepeatAt(zones, init, z, i, j);
      }
    }
    if Repeats(zones, init, z) {
      var i, j :| 0 <= i < j < |init| && RepeatAt(zones, init, z, i, j);
      assert RepeatAt(zones, detections, z, i, j);
    }
    if detections[n].track in Found(zones, init, z) {
      var i := FoundAt(zones, init, z, detections[n].track);
      assert RepeatAt(zones, detections, z, i, n);
    }
  }

  lemma OccupantsWrite(status: map<Track, Option<Zone>>, t: Track, current: Option<Zone>, z: Zone)
    ensures Occupants(status[t := current], z) == Occupants(status, z) - {t} + If(current == Some(z), t)
  {
  }

  lemma StatusSnoc(s: State, detections: seq<Detection>, now: real)
    requires ZonesDrawn(s.zones) && detections != []
    ensures var n := |detections| - 1;
      Seen(s, detections, now).status ==
      Seen(s, detections[..n], now).status[detections[n].track := Locate(s.zones, detections[n].center, 0)]
  {
  }

  lemma OccupantsSnoc(s: State, detections: seq<Detection>, now: real, z: Zone)
    requires ZonesDrawn(s.zones) && detections != []
    ensures var n := |detections| - 1;
      Occupants(Seen(s, detections, now).status, z) ==
      Occupants(Seen(s, detections[..n], now).status, z) - {detections[n].track}
        + If(LastIsIn(s.zones, detections, z), detections[n].track)
  {
    var n := |detections| - 1;
    StatusSnoc(s, detections, now);
    OccupantsWrite(Seen(s, detections[..n], now).status, detections[n].track,
                   Locate(s.zones, detections[n].center, 0), z);
  }

  /** The live count of a zone is the number of detections in it. */
  lemma {:induction false} LiveIsDetected(s: State, detections: seq<Detection>, now: real, z: Zone)
    requires ZonesDrawn(s.zones)
    ensures Count(Seen(s, detections, now).live, z) == Count(s.live, z) + |Detected(s.zones, detections, z)|
    decreases |detections|
  {
    if detections == [] {
      assert Detected(s.zones, detections, z) == {};
    } else {
      LiveIsDetected(s, detections[..|detections| - 1], now, z);
      DetectedSnoc(s.zones, detections, z);
    }
  }

  lemma StayStep(found: set<Track>, detected: set<int>, occupants: set<Track>, t: Track, n: int, here: bool)
    requires t !in found && n !in detected && |found| == |detected| && found <= occupants
    ensures |found + If(here, t)| == |detected + If(here, n)|
    ensures found + If(here, t) <= occupants - {t} + If(here, t)
  {
  }

  /** Unless a track is detected again after it was detected in the zone, the tracks found there are as
      many as the detections, and all of them are still there after the frame. */
  lemma {:induction false} FoundStay(s: State, detections: seq<Detection>, now: real, z: Zone)
    requires ZonesDrawn(s.zones) && !Repeats(s.zones, detections, z)
    ensures |Found(s.zones, detections, z)| == |Detected(s.zones, detections, z)|
    ensures Found(s.zones, detections, z) <= Occupants(Seen(s, detections, now).status, z)
    decreases |detections|
  {
    if detections == [] {
      assert Detected(s.zones, detections, z) == {};
      assert Found(s.zones, detections, z) == {};
    } else {
      var n := |detections| - 1;
      var init := detections[..n];
      RepeatsSnoc(s.zones, detections, z);
      FoundStay(s, init, now, z);
      DetectedSnoc(s.zones, detections, z);
      FoundSnoc(s.zones, detections, z);
      OccupantsSnoc(s, detections, now, z);
      StayStep(Found(s.zones, init, z), Detected(s.zones, init, z), Occupants(Seen(s, init, now).status, z),
               detections[n].track, n, LastIsIn(s.zones, detections, z));
    }
  }

  /** The occupants are among the tracks found, and fewer than the detections exactly if one repeats. */
  predicate Deficit(occupants: set<Track>, found: set<Track>, detected: set<int>, repeats: bool) {
    occupants <= found && |occupants| <= |detected| && (|occupants| == |detected| <==> !repeats)
  }

  lemma SetReplace<T>(a: set<T>, t: T, here: bool)
    ensures |a - {t} + If(here, t)| == |a| - (if t in a then 1 else 0) + (if here then 1 else 0)
  {
    assert a == if t in a then a - {t} + {t} else a - {t};
  }

  lemma DeficitStep(occupants: set<Track>, found: set<Track>, detected: set<int>, repeats: bool,
                    t: Track, n: int, here: bool)
    requires Deficit(occupants, found, detected, repeats) && (!repeats ==> found <= occupants) && n !in detected
    ensures Deficit(occupants - {t} + If(here, t), found + If(here, t), detected + If(here, n), repeats || t in found)
  {
    SetReplace(occupants, t, here);
    assert |detected + If(here, n)| == |detected| + if here then 1 else 0;
  }

  lemma {:induction false} FrameDeficit(s: State, detections: seq<Detection>, now: real, z: Zone)
    requires ZonesDrawn(s.zones) && Occupants(s.status, z) == {}
    ensures Deficit(Occupants(Seen(s, detections, now).status, z), Found(s.zones, detections, z),
                    Detected(s.zones, detections, z), Repeats(s.zones, detections, z))
    decreases |detections|
  {
    if detections == [] {
      assert Detected(s.zones, detections, z) == {};
    } else {
      var n := |detections| - 1;
      var init := detections[..n];
      FrameDeficit(s, init, now, z);
      RepeatsSnoc(s.zones, detections, z);
      DetectedSnoc(s.zones, detections, z);
      FoundSnoc(s.zones, detections, z);
      OccupantsSnoc(s, detections, now, z);
      if !Repeats(s.zones, init, z) {
        FoundStay(s, init, now, z);
      }
      DeficitStep(Occupants(Seen(s, init, now).status, z), Found(s.zones, init, z), Detected(s.zones, init, z),
                  Repeats(s.zones, init, z), detections[n].track, n, LastIsIn(s.zones, detections, z));
    }
  }

  /** The state after a run, its live counts reset for the next frame. */
  function Cleared(events: seq<Event>): (s: State)
    ensures ZonesDrawn(s.zones)
  {
    var s := After(INIT, events);
    s.(live := Reset(s.live, |s.zones|))
  }

  lemma FrameBalanced(events: seq<Event>, detections: seq<Detection>, now: real)
    ensures Balanced(Cleared(events)) && Balanced(Apply(After(INIT, events), Frame(detections, now)))
  {
    forall k ensures ZoneBalanced(INIT, k) {
      assert Occupants(INIT.status, k) == {};
    }
    BalancedRun(INIT, events);
    BalancedIgnores(After(INIT, events), Cleared(events));
    SeenBalanced(Cleared(events), detections, now);
  }

  /** After every frame of every run the live count of a zone is the number of detections in it; and unless
      a track is detected again after it was detected there, that is the number of tracks found there, and
      at most entries minus exits. */
  lemma LiveWithinBalance(events: seq<Event>, detections: seq<Detection>, now: real, z: Zone)
    requires 0 <= z < |After(INIT, events).zones|
    ensures var zones, s' := After(INIT, events).zones, Apply(After(INIT, events), Frame(detections, now));
      && Count(s'.live, z) == |Detected(zones, detections, z)|
      && (!Repeats(zones, detections, z) ==>
            Count(s'.live, z) == |Found(zones, detections, z)| <= Count(s'.entries, z) - Count(s'.exits, z))
  {
    var s := Cleared(events);
    FrameBalanced(events, detections, now);
    LiveIsDetected(s, detections, now, z);
    var s' := Seen(s, detections, now);
    assert ZoneBalanced(s', z);
    if !Repeats(s.zones, detections, z) {
      FoundStay(s, detections, now, z);
      SubsetSize(Found(s.zones, detections, z), Occupants(s'.status, z));
    }
  }

  /** In a zone that was empty before the frame, the live count stays within entries minus exits exactly
      when no track is detected again after it was detected there. */
  lemma LiveExceedsBalanceExactly(events: seq<Event>, detections: seq<Detection>, now: real, z: Zone)
    requires 0 <= z < |After(INIT, events).zones|
    requires Count(After(INIT, events).entries, z) == Count(After(INIT, events).exits, z)
    ensures var s' := Apply(After(INIT, events), Frame(detections, now));
      Count(s'.live, z) <= Count(s'.entries, z) - Count(s'.exits, z) <==>
      !Repeats(After(INIT, events).zones, detections, z)
  {
    var s := Cleared(events);
    FrameBalanced(events, detections, now);
    assert ZoneBalanced(s, z) && ZoneBalanced(Seen(s, detections, now), z);
    assert Occupants(s.status, z) == {};
    LiveIsDetected(s, detections, now, z);
    FrameDeficit(s, detections, now, z);
  }

  ghost predicate DistinctTracks(detections: seq<Detection>) {
    forall i, j :: 0 <= i < j < |detections| ==> detections[i].track != detections[j].track
  }

  /** Distinct ids in the frame, as a tracker gives them, are enough for every zone. */
  lemma DistinctNeverRepeat(zones: seq<seq<Point>>, detections: seq<Detection>, z: Zone)
    requires ZonesDrawn(zones) && DistinctTracks(detections)
    ensures !Repeats(zones, detections, z)
  {
  }

  lemma SubsetSize<T>(a: set<T>, b: set<T>)
    requires a <= b
    ensures |a| <= |b|
  {
    assert b == a + (b - a);
  }

  // ---------- the object ----------

  class GeoFencingTracker {
    var zones: seq<seq<Point>>
    var zoneCounts: map<Zone, int>
    var objectZoneStatus: map<Track, Option<Zone>>
    var objectEntryTimes: map<Track, map<Zone, real>>
    var zoneTotalEntries: map<Zone, int>
    var zoneTotalExits: map<Zone, int>
    var objectDwellTimes: map<Zone, seq<real>>

    ghost function View(): State
      reads this
    {
      State(zones, zoneCounts, objectZoneStatus, objectEntryTimes, zoneTotalEntries, zoneTotalExits, objectDwellTimes)
    }

    constructor ()
      ensures View() == INIT
    {
      zones, zoneCounts, objectZoneStatus, objectEntryTimes := [], map[], map[], map[];
      zoneTotalEntries, zoneTotalExits, objectDwellTimes := map[], map[], map[];
    }

    method AddZone(points: seq<Point>) returns (added: bool)
      requires ZonesDrawn(zones)
      modifies this
      ensures added == (|points| >= 3)
      ensures View() == Apply(old(View()), Event.AddZone(points))
    {
      if |points| < 3 {
        return false;
      }
      zones := zones + [points];
      return true;
    }

    /** The detections of one processed frame. */
    method ProcessFrame(detections: seq<Detection>, now: real)
      requires ZonesDrawn(zones)
      modifies this
      ensures View() == Apply(old(View()), Event.Frame(detections, now))
    {
      ResetCounts();
      ghost var cleared := View();
      var n := 0;
      assert detections[..0] == [];
      while n < |detections|
        invariant 0 <= n <= |detections|
        invariant zones == old(zones)
        invariant View() == Seen(cleared, detections[..n], now)
      {
        SeenNext(cleared, detections, n, now);
        Detect(detections[n], now);
        n := n + 1;
      }
      assert detections[..n] == detections;
    }

    method Detect(d: Detection, now: real)
      requires ZonesDrawn(zones)
      modifies this
      ensures View() == Observed(old(View()), d.track, Locate(old(zones), d.center, 0), now)
      ensures zones == old(zones)
    {
      var current := FindZone(d.center);
      Observe(d.track, current, now);
    }

    method ResetCounts()
      modifies this`zoneCounts
      ensures zoneCounts == Reset(old(zoneCounts), |zones|)
    {
      var i := 0;
      while i < |zones|
        invariant 0 <= i <= |zones|
        invariant zoneCounts == Reset(old(zoneCounts), i)
      {
        zoneCounts := zoneCounts[i := 0];
        i := i + 1;
      }
    }

    /** The search loop with its break. */
    method FindZone(center: Point) returns (current: Option<Zone>)
      requires ZonesDrawn(zones)
      ensures current == Locate(zones, center, 0)
    {
      var i := 0;
      while i < |zones|
        invariant 0 <= i <= |zones|
        invariant Locate(zones, center, 0) == Locate(zones, center, i)
      {
        var inside := PointInPolygon(center, zones[i]);
        if inside {
          return Some(i);
        }
        i := i + 1;
      }
      return None;
    }

    method Observe(track: Track, current: Option<Zone>, now: real)
      modifies this
      ensures zones == old(zones)
      ensures View() == Observed(old(View()), track, current, now)
    {
      if track !in objectEntryTimes {
        objectEntryTimes := objectEntryTimes[track := map[]];
      }
      if current.Some? {
        zoneCounts := zoneCounts[current.value := Count(zoneCounts, current.value) + 1];
      }
      var previous := if track in objectZoneStatus then objectZoneStatus[track] else None;
      if current != previous {
        if previous.Some? {
          RecordExit(track, previous.value, now);
        }
        if current.Some? {
          RecordEntry(track, current.value, now);
        }
      }
      objectZoneStatus := objectZoneStatus[track := current];
    }

    method RecordExit(track: Track, z: Zone, now: real)
      requires track in objectEntryTimes
      modifies this
      ensures View() == Leave(old(View()), track, z, now)
    {
      zoneTotalExits := zoneTotalExits[z := Count(zoneTotalExits, z) + 1];
      if z in objectEntryTimes[track] {
        var dwellTime := now - objectEntryTimes[track][z];
        objectDwellTimes := objectDwellTimes[z := Samples(objectDwellTimes, z) + [dwellTime]];
        objectEntryTimes := objectEntryTimes[track := objectEntryTimes[track] - {z}];
      }
    }

    method RecordEntry(track: Track, z: Zone, now: real)
      requires track in objectEntryTimes
      modifies this
      ensures View() == Enter(old(View()), track, z, now)
    {
      zoneTotalEntries := zoneTotalEntries[z := Count(zoneTotalEntries, z) + 1];
      objectEntryTimes := objectEntryTimes[track := objectEntryTimes[track][z := now]];
    }
  }
}
