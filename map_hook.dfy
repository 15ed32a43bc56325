/**
 * The dispatch map hook: a dictionary of markers keyed `tech-<id>` and
 * `job-<id>`, reconciled in place with each technician/job push, plus the
 * small pure helpers (initials and status colours).
 *
 * A marker is identified by a serial number standing for the Leaflet marker
 * object; the map's layer set holds the serials of the markers added to it.
 * Coordinates are reals; map geometry is not modelled.
 */
module MapMarkers {
  import opened Wrappers
  import opened Strings

  /** A coordinate as received: missing (null/undefined) or a number. */
  type Coord = Option<real>

  /** JavaScript truthiness of a coordinate: present and not zero. */
  predicate Truthy(c: Coord) {
    c.Some? && c.value != 0.0
  }

  datatype LatLng = LatLng(lat: real, lng: real)

  datatype Technician = Technician(id: string, name: Option<string>, status: string, color: Option<string>,
                                  currentLat: Coord, currentLng: Coord)

  datatype Job = Job(id: string, status: string, serviceLat: Coord, serviceLng: Coord)

  /** One marker the data asks for: its dictionary key and its position. */
  datatype Placement = Placement(key: string, at: LatLng, look: Look)

  /**
   * The icon drawn for a marker when it is created: a technician's disc
   * (background colour, initials, status dot colour) or a job's square
   * (border colour).
   */
  datatype Look = TechLook(background: string, initials: string, dot: string) | JobLook(border: string)

  /** A Leaflet marker: its identity, its current position and its icon. */
  datatype Marker = Marker(serial: nat, at: LatLng, look: Look)

  predicate TechLocated(t: Technician) {
    Truthy(t.currentLat) && Truthy(t.currentLng)
  }

  predicate JobLocated(j: Job) {
    Truthy(j.serviceLat) && Truthy(j.serviceLng)
  }

  function TechKey(t: Technician): string {
    "tech-" + t.id
  }

  function JobKey(j: Job): string {
    "job-" + j.id
  }

  /** A technician's icon: its own colour when truthy (teal otherwise), its initials and its status colour. */
  function TechIcon(t: Technician): Look {
    var background := if t.color.Some? && t.color.value != "" then t.color.value else "#14b8a6";
    TechLook(background, Initials(t.name), TechStatusColor(t.status))
  }

  /** The marker a technician asks for: one when both coordinates are truthy. */
  function TechPlacement(t: Technician): seq<Placement> {
    if TechLocated(t) then [Placement(TechKey(t), LatLng(t.currentLat.value, t.currentLng.value), TechIcon(t))] else []
  }

  /** The marker a job asks for: one when both service coordinates are truthy. */
  function JobPlacement(j: Job): seq<Placement> {
    if JobLocated(j) then [Placement(JobKey(j), LatLng(j.serviceLat.value, j.serviceLng.value), JobLook(JobStatusColor(j.status)))] else []
  }

  /** The technicians' markers, in data order. */
  function TechPlacements(ts: seq<Technician>): seq<Placement>
    decreases |ts|
  {
    if |ts| == 0 then [] else TechPlacements(ts[..|ts| - 1]) + TechPlacement(ts[|ts| - 1])
  }

  /** The jobs' markers, in data order. */
  function JobPlacements(js: seq<Job>): seq<Placement>
    decreases |js|
  {
    if |js| == 0 then [] else JobPlacements(js[..|js| - 1]) + JobPlacement(js[|js| - 1])
  }

  lemma JobPlacementsStep(tps: seq<Placement>, jobs: seq<Job>, j: nat)
    requires j < |jobs|
    ensures tps + JobPlacements(jobs[..j + 1]) == tps + JobPlacements(jobs[..j]) + JobPlacement(jobs[j])
  {
    assert jobs[..j + 1][..j] == jobs[..j];
  }

  /** Everything one push asks for: technicians first, then jobs. */
  function Placements(ts: seq<Technician>, js: seq<Job>): seq<Placement> {
    TechPlacements(ts) + JobPlacements(js)
  }

  /** The keys placed (the `newMarkerIds` set). */
  function Keys(ps: seq<Placement>): set<string>
    decreases |ps|
  {
    if |ps| == 0 then {} else Keys(ps[..|ps| - 1]) + {ps[|ps| - 1].key}
  }

  /** The points collected for the bounds (`allLatLngs`). */
  function Points(ps: seq<Placement>): (r: seq<LatLng>)
    ensures |r| == |ps|
    decreases |ps|
  {
    if |ps| == 0 then [] else Points(ps[..|ps| - 1]) + [ps[|ps| - 1].at]
  }

  /** The icon of the first placement with this key: the one that creates its marker. */
  function FirstLook(ps: seq<Placement>, key: string): Look
    requires key in Keys(ps)
    decreases |ps|
  {
    var init := ps[..|ps| - 1];
    if key in Keys(init) then FirstLook(init, key) else ps[|ps| - 1].look
  }

  /** Where the last placement with this key puts it. */
  function LastAt(ps: seq<Placement>, key: string): LatLng
    requires key in Keys(ps)
    decreases |ps|
  {
    if ps[|ps| - 1].key == key then ps[|ps| - 1].at else LastAt(ps[..|ps| - 1], key)
  }

  lemma {:induction false} KeysConcat(a: seq<Placement>, b: seq<Placement>)
    ensures Keys(a + b) == Keys(a) + Keys(b)
    decreases |b|
  {
    if |b| == 0 {
      assert a + b == a;
    } else {
      KeysConcat(a, b[..|b| - 1]);
      assert (a + b)[..|a + b| - 1] == a + b[..|b| - 1];
    }
  }

  /** A key is placed for a technician exactly when some technician with that id has both coordinates. */
  lemma {:induction false} TechKeys(ts: seq<Technician>, k: string)
    ensures k in Keys(TechPlacements(ts)) <==> exists i :: 0 <= i < |ts| && TechLocated(ts[i]) && k == TechKey(ts[i])
    decreases |ts|
  {
    if |ts| > 0 {
      var init := ts[..|ts| - 1];
      var t := ts[|ts| - 1];
      var last := TechPlacement(t);
      TechKeys(init, k);
      KeysConcat(TechPlacements(init), last);
      assert Keys(last) == if TechLocated(t) then {TechKey(t)} else {} by {
        if TechLocated(t) {
          assert last[..0] == [];
        }
      }
      if exists i :: 0 <= i < |ts| && TechLocated(ts[i]) && k == TechKey(ts[i]) {
        var i :| 0 <= i < |ts| && TechLocated(ts[i]) && k == TechKey(ts[i]);
        if i < |init| {
          assert init[i] == ts[i];
        }
      }
      if exists i :: 0 <= i < |init| && TechLocated(init[i]) && k == TechKey(init[i]) {
        var i :| 0 <= i < |init| && TechLocated(init[i]) && k == TechKey(init[i]);
        assert ts[i] == init[i];
      }
    }
  }

  /** A key is placed for a job exactly when some job with that id has both service coordinates. */
  lemma {:induction false} JobKeys(js: seq<Job>, k: string)
    ensures k in Keys(JobPlacements(js)) <==> exists i :: 0 <= i < |js| && JobLocated(js[i]) && k == JobKey(js[i])
    decreases |js|
  {
    if |js| > 0 {
      var init := js[..|js| - 1];
      var j := js[|js| - 1];
      var last := JobPlacement(j);
      JobKeys(init, k);
      KeysConcat(JobPlacements(init), last);
      assert Keys(last) == if JobLocated(j) then {JobKey(j)} else {} by {
        if JobLocated(j) {
          assert last[..0] == [];
        }
      }
      if exists i :: 0 <= i < |js| && JobLocated(js[i]) && k == JobKey(js[i]) {
        var i :| 0 <= i < |js| && JobLocated(js[i]) && k == JobKey(js[i]);
        if i < |init| {
          assert init[i] == js[i];
        }
      }
      if exists i :: 0 <= i < |init| && JobLocated(init[i]) && k == JobKey(init[i]) {
        var i :| 0 <= i < |init| && JobLocated(init[i]) && k == JobKey(init[i]);
        assert js[i] == init[i];
      }
    }
  }

  /** Technician and job markers never share a key. */
  lemma TechAndJobKeysDiffer(t: Technician, j: Job)
    ensures TechKey(t) != JobKey(j)
  {
    assert TechKey(t)[0] == 't' && JobKey(j)[0] == 'j';
  }

  /** The marker serials, i.e. the layers these markers occupy on the map. */
  function Serials(m: map<string, Marker>): set<nat> {
    set k | k in m :: m[k].serial
  }

  predicate SerialsDistinct(m: map<string, Marker>) {
    forall k1, k2 :: k1 in m && k2 in m && k1 != k2 ==> m[k1].serial != m[k2].serial
  }

  /**
   * The dictionary `m` holds the start dictionary `m0` reconciled with the
   * placements `ps`: exactly the old and the placed keys, each placed key at
   * its last position, untouched old entries, old markers kept (same
   * serial) and new ones numbered from `n0` on.
   */
  ghost predicate Reconciled(m0: map<string, Marker>, n0: nat, ps: seq<Placement>, m: map<string, Marker>) {
    && m.Keys == m0.Keys + Keys(ps)
    && (forall k :: k in Keys(ps) ==> m[k].at == LastAt(ps, k))
    && (forall k :: k in m0 && k !in Keys(ps) ==> m[k] == m0[k])
    && (forall k :: k in m0 ==> m[k].serial == m0[k].serial && m[k].look == m0[k].look)
    && (forall k :: k in m && k !in m0 ==> n0 <= m[k].serial && m[k].look == FirstLook(ps, k))
  }

  /** One more placement, applied as the hook applies it, keeps the dictionary reconciled. */
  lemma ReconcileStep(m0: map<string, Marker>, n0: nat, ps: seq<Placement>, m: map<string, Marker>,
                      p: Placement, n: nat, m': map<string, Marker>)
    requires Reconciled(m0, n0, ps, m) && n0 <= n
    requires m' == if p.key in m then m[p.key := m[p.key].(at := p.at)] else m[p.key := Marker(n, p.at, p.look)]
    ensures Reconciled(m0, n0, ps + [p], m')
  {
    var ps' := ps + [p];
    assert ps'[..|ps'| - 1] == ps;
    assert Keys(ps') == Keys(ps) + {p.key};
    assert p.key in m ==> m'[p.key].serial == m[p.key].serial && m'[p.key].look == m[p.key].look;
    forall k | k in Keys(ps')
      ensures m'[k].at == LastAt(ps', k)
    {
      if k != p.key {
        assert LastAt(ps', k) == LastAt(ps, k);
      }
    }
    forall k | k in m0
      ensures m'[k].serial == m0[k].serial && m'[k].look == m0[k].look
    {
    }
    forall k | k in m' && k !in m0
      ensures n0 <= m'[k].serial && m'[k].look == FirstLook(ps', k)
    {
      if k in Keys(ps) {
        assert FirstLook(ps', k) == FirstLook(ps, k);
      }
    }
  }

  lemma ReconciledStart(m0: map<string, Marker>, n0: nat)
    ensures Reconciled(m0, n0, [], m0)
  {
  }

  /** Pruning a reconciled dictionary to the placed keys leaves exactly the placed markers. */
  lemma ReconciledThenPruned(m0: map<string, Marker>, n0: nat, ps: seq<Placement>,
                             m: map<string, Marker>, pruned: map<string, Marker>)
    requires Reconciled(m0, n0, ps, m)
    requires pruned.Keys == m.Keys * Keys(ps) && forall k :: k in pruned ==> pruned[k] == m[k]
    ensures pruned.Keys == Keys(ps)
    ensures forall k :: k in pruned ==> pruned[k].at == LastAt(ps, k)
    ensures forall k :: k in pruned && k in m0 ==> pruned[k].serial == m0[k].serial && pruned[k].look == m0[k].look
    ensures forall k :: k in pruned && k !in m0 ==> n0 <= pruned[k].serial && pruned[k].look == FirstLook(ps, k)
  {
  }

  /** A `data-*` attribute holding JSON: absent or empty, not parseable, or parsed. */
  datatype Attr<T> = Missing | Malformed | Parsed(value: T)

  /**
   * loadInitialData: the technicians and jobs to place, if any.  Nothing is
   * loaded without technician data or when either attribute fails to parse
   * (the error is caught); absent job data stands for no jobs.
   */
  function InitialData(techAttr: Attr<seq<Technician>>, jobAttr: Attr<seq<Job>>): (r: Option<(seq<Technician>, seq<Job>)>)
    ensures r.Some? <==> techAttr.Parsed? && !jobAttr.Malformed?
    ensures r.Some? ==> r.value.0 == techAttr.value
    ensures r.Some? && jobAttr.Missing? ==> r.value.1 == []
    ensures r.Some? && jobAttr.Parsed? ==> r.value.1 == jobAttr.value
  {
    match techAttr
    case Parsed(techs) =>
      (match jobAttr
       case Missing => Some((techs, []))
       case Malformed => None
       case Parsed(jobs) => Some((techs, jobs)))
    case _ => None
  }

  /** A marker whose key is not placed again is taken off the map together with its entry. */
  lemma SerialsRemove(m: map<string, Marker>, key: string)
    requires key in m && SerialsDistinct(m)
    ensures Serials(m - {key}) == Serials(m) - {m[key].serial}
  {
    forall s | s in Serials(m) - {m[key].serial}
      ensures s in Serials(m - {key})
    {
      var k :| k in m && m[k].serial == s;
      assert k in m - {key};
    }
  }

  lemma SerialsAdd(m: map<string, Marker>, key: string, mk: Marker)
    requires key !in m
    ensures Serials(m[key := mk]) == Serials(m) + {mk.serial}
  {
    forall s | s in Serials(m)
      ensures s in Serials(m[key := mk])
    {
      var k :| k in m && m[k].serial == s;
      assert k in m[key := mk] && m[key := mk][k] == m[k];
    }
    assert key in m[key := mk] && m[key := mk][key] == mk;
    forall s | s in Serials(m[key := mk])
      ensures s in Serials(m) + {mk.serial}
    {
      var k :| k in m[key := mk] && m[key := mk][k].serial == s;
      if k != key {
        assert k in m && m[k].serial == s;
      }
    }
  }

  lemma SerialsMove(m: map<string, Marker>, key: string, at: LatLng)
    requires key in m
    ensures Serials(m[key := m[key].(at := at)]) == Serials(m)
  {
    var m' := m[key := m[key].(at := at)];
    forall s | s in Serials(m)
      ensures s in Serials(m')
    {
      var k :| k in m && m[k].serial == s;
      assert k in m' && m'[k].serial == s;
    }
  }

  class MapHook {
    /** Whether the Leaflet map exists (`this.map` is set). */
    var hasMap: bool
    var markers: map<string, Marker>
    /** The markers currently added to the map, by serial. */
    var layers: set<nat>
    /** The serial the next new marker receives. */
    var nextSerial: nat
    /** The points of the last fitBounds call, if any. */
    var fitted: Option<seq<LatLng>>

    ghost predicate Valid()
      reads this
    {
      && (!hasMap ==> markers == map[])
      && layers == Serials(markers)
      && SerialsDistinct(markers)
      && (forall k :: k in markers ==> markers[k].serial < nextSerial)
    }

    /** mounted: no map yet and an empty dictionary. */
    constructor Mounted()
      ensures Valid() && !hasMap && markers == map[] && fitted == None
    {
      hasMap := false;
      markers := map[];
      layers := {};
      nextSerial := 0;
      fitted := None;
    }

    /**
     * initializeMap: while the container has no size nothing happens (the
     * source retries later, which is another call).  Otherwise the map is
     * created and the initial data of the element is loaded through
     * updateMarkers; data that is absent or fails to parse loads nothing.
     */
    method InitializeMap(sized: bool, techAttr: Attr<seq<Technician>>, jobAttr: Attr<seq<Job>>)
      requires Valid()
      modifies this
      ensures Valid()
      ensures !sized ==> unchanged(this)
      ensures sized ==> hasMap
      ensures sized && InitialData(techAttr, jobAttr).None? ==>
        markers == old(markers) && layers == old(layers) && fitted == old(fitted) && nextSerial == old(nextSerial)
      ensures sized && InitialData(techAttr, jobAttr).Some? ==>
        var (techs, jobs) := InitialData(techAttr, jobAttr).value;
        ShowsUpdate(old(markers), old(nextSerial), old(fitted), Placements(techs, jobs))
    {
      if !sized {
        return;
      }
      hasMap := true;
      var data := InitialData(techAttr, jobAttr);
      if data.Some? {
        UpdateMarkers(data.value.0, data.value.1);
      }
    }

    /** One placement: an existing marker is moved, otherwise a new one is created and added to the map. */
    method Place(key: string, at: LatLng, look: Look)
      requires Valid() && hasMap
      modifies this
      ensures Valid() && hasMap && fitted == old(fitted)
      ensures key in old(markers) ==>
        && markers == old(markers)[key := old(markers)[key].(at := at)]
        && nextSerial == old(nextSerial)
      ensures key !in old(markers) ==>
        && markers == old(markers)[key := Marker(old(nextSerial), at, look)]
        && layers == old(layers) + {old(nextSerial)}
        && nextSerial == old(nextSerial) + 1
    {
      if key in markers {
        SerialsMove(markers, key, at);
        markers := markers[key := markers[key].(at := at)];
      } else {
        var marker := Marker(nextSerial, at, look);
        SerialsAdd(markers, key, marker);
        layers := layers + {nextSerial};
        markers := markers[key := marker];
        nextSerial := nextSerial + 1;
      }
    }

    /**
     * The markers after updateMarkers applied the placements `ps` to the
     * dictionary `m0` (serials from `n0` on, fitted points `f0`): exactly the
     * placed keys, each at its last placed point; a kept marker keeps its
     * layer and look, a new one has a fresh serial and the look of its first
     * placement; the view is fitted to the points when there are any.
     */
    ghost predicate ShowsUpdate(m0: map<string, Marker>, n0: nat, f0: Option<seq<LatLng>>, ps: seq<Placement>)
      reads this
    {
      && markers.Keys == Keys(ps)
      && (forall k :: k in markers ==> markers[k].at == LastAt(ps, k))
      && (forall k :: k in markers && k in m0 ==> markers[k].serial == m0[k].serial && markers[k].look == m0[k].look)
      && (forall k :: k in markers && k !in m0 ==> n0 <= markers[k].serial && markers[k].look == FirstLook(ps, k))
      && fitted == if |ps| > 0 then Some(Points(ps)) else f0
    }

    /**
     * updateMarkers: places every located technician and then every located
     * job, removes the markers whose key was not placed, and fits the view
     * to the collected points when there are any.  Without a map it does nothing.
     */
    method UpdateMarkers(techs: seq<Technician>, jobs: seq<Job>)
      requires Valid()
      modifies this
      ensures Valid() && hasMap == old(hasMap)
      ensures !old(hasMap) ==>
        markers == old(markers) && layers == old(layers) && fitted == old(fitted) && nextSerial == old(nextSerial)
      ensures old(hasMap) ==> ShowsUpdate(old(markers), old(nextSerial), old(fitted), Placements(techs, jobs))
    {
      if !hasMap {
        return;
      }
      ghost var m0, n0 := markers, nextSerial;
      var seen, points := PlaceTechnicians(techs);
      seen, points := PlaceJobs(m0, n0, TechPlacements(techs), jobs, seen, points);
      ghost var ps := Placements(techs, jobs);
      ghost var reconciled := markers;
      RemoveUnseen(seen);
      ReconciledThenPruned(m0, n0, ps, reconciled, markers);
      if |points| > 0 {
        fitted := Some(points);
      }
    }

    /**
     * The state of updateMarkers after the placements `ps`: the dictionary is
     * reconciled with them and `seen`/`points` hold their keys and points.
     */
    ghost predicate Tracks(m0: map<string, Marker>, n0: nat, ps: seq<Placement>, seen: set<string>, points: seq<LatLng>)
      reads this
    {
      && Valid() && hasMap && n0 <= nextSerial
      && Reconciled(m0, n0, ps, markers) && seen == Keys(ps) && points == Points(ps)
    }

    /** The technician loop of updateMarkers. */
    method PlaceTechnicians(techs: seq<Technician>) returns (seen: set<string>, points: seq<LatLng>)
      requires Valid() && hasMap
      modifies this
      ensures fitted == old(fitted)
      ensures Tracks(old(markers), old(nextSerial), TechPlacements(techs), seen, points)
    {
      ghost var m0, n0 := markers, nextSerial;
      seen, points := {}, [];
      var i := 0;
      while i < |techs|
        invariant 0 <= i <= |techs| && fitted == old(fitted)
        invariant Tracks(m0, n0, TechPlacements(techs[..i]), seen, points)
      {
        assert techs[..i + 1][..i] == techs[..i];
        seen, points := Accept(m0, n0, TechPlacements(techs[..i]), TechPlacement(techs[i]), seen, points);
        i := i + 1;
      }
      assert techs[..|techs|] == techs;
    }

    /** The job loop of updateMarkers, continuing after the technicians' placements `tps`. */
    method PlaceJobs(ghost m0: map<string, Marker>, ghost n0: nat, ghost tps: seq<Placement>, jobs: seq<Job>,
                     seen0: set<string>, points0: seq<LatLng>)
      returns (seen: set<string>, points: seq<LatLng>)
      requires Tracks(m0, n0, tps, seen0, points0)
      modifies this
      ensures fitted == old(fitted)
      ensures Tracks(m0, n0, tps + JobPlacements(jobs), seen, points)
    {
      seen, points := seen0, points0;
      ghost var ps := tps;
      assert jobs[..0] == [];
      var j := 0;
      while j < |jobs|
        invariant 0 <= j <= |jobs| && fitted == old(fitted)
        invariant ps == tps + JobPlacements(jobs[..j])
        invariant Tracks(m0, n0, ps, seen, points)
      {
        seen, points := Accept(m0, n0, ps, JobPlacement(jobs[j]), seen, points);
        JobPlacementsStep(tps, jobs, j);
        ps := ps + JobPlacement(jobs[j]);
        j := j + 1;
      }
      assert jobs[..|jobs|] == jobs;
    }

    /**
     * One loop step: the placement the current technician or job asks for,
     * if any, is applied and its key and point are collected.
     */
    method Accept(ghost m0: map<string, Marker>, ghost n0: nat, ghost ps: seq<Placement>, more: seq<Placement>,
                  seen: set<string>, points: seq<LatLng>)
      returns (seen': set<string>, points': seq<LatLng>)
      requires Tracks(m0, n0, ps, seen, points) && |more| <= 1
      modifies this
      ensures fitted == old(fitted)
      ensures Tracks(m0, n0, ps + more, seen', points')
    {
      if |more| == 0 {
        assert ps + more == ps;
        seen', points' := seen, points;
      } else {
        var p := more[0];
        assert more == [p];
        ghost var before, n := markers, nextSerial;
        Place(p.key, p.at, p.look);
        ReconcileStep(m0, n0, ps, before, p, n, markers);
        assert (ps + [p])[..|ps + [p]| - 1] == ps;
        seen', points' := seen + {p.key}, points + [p.at];
      }
    }

    /** The removal pass: every marker whose key is not in `seen` leaves the map and the dictionary. */
    method RemoveUnseen(seen: set<string>)
      requires Valid() && hasMap
      modifies this
      ensures Valid() && hasMap && fitted == old(fitted) && nextSerial == old(nextSerial)
      ensures markers.Keys == old(markers).Keys * seen
      ensures forall k :: k in markers ==> markers[k] == old(markers)[k]
    {
      var keys := markers.Keys;
      while keys != {}
        invariant keys <= old(markers).Keys
        invariant Valid() && hasMap && fitted == old(fitted) && nextSerial == old(nextSerial)
        invariant forall k :: k in markers <==> k in old(markers) && (k in keys || k in seen)
        invariant forall k :: k in markers ==> markers[k] == old(markers)[k]
        decreases keys
      {
        var id :| id in keys;
        if id !in seen {
          SerialsRemove(markers, id);
          layers := layers - {markers[id].serial};
          markers := markers - {id};
        }
        keys := keys - {id};
      }
    }

    /** destroyed: the map is removed with all its layers and the dictionary emptied. */
    method Destroyed()
      requires Valid()
      modifies this
      ensures Valid() && !hasMap && markers == map[] && layers == {}
    {
      if hasMap {
        hasMap := false;
        markers := map[];
        layers := {};
      }
    }
  }

  // ---------------------------------------------------------------------------
  // Pure helpers

  /** The first character of each part (`charAt(0)` of an empty part is empty), concatenated. */
  function FirstChars(parts: seq<string>): (r: string)
    ensures |r| <= |parts|
  {
    if |parts| == 0 then ""
    else (if |parts[0]| > 0 then [parts[0][0]] else []) + FirstChars(parts[1..])
  }

  /** getInitials: "?" for a missing or empty name, else the upper-cased initials of its first two words. */
  function Initials(name: Option<string>): (r: string)
    ensures |r| <= 2
    ensures name.None? || name.value == "" ==> r == "?"
  {
    if name.None? || name.value == "" then "?"
    else
      var parts := Split(name.value, ' ');
      ToUpper(FirstChars(parts[..if |parts| < 2 then |parts| else 2]))
  }

  /** A name that starts with a letter has an initial: that letter, upper-cased. */
  lemma InitialsStart(name: string)
    requires |name| > 0 && name[0] != ' '
    ensures |Initials(Some(name))| >= 1 && Initials(Some(name))[0] == UpperChar(name[0])
  {
    SplitFirstChar(name, ' ');
  }

  /** "first last" gives the two upper-cased initials. */
  lemma InitialsOfTwoWords(first: string, rest: string)
    requires |first| > 0 && |rest| > 0 && ' ' !in first && ' ' !in rest
    ensures Initials(Some(first + " " + rest)) == [UpperChar(first[0]), UpperChar(rest[0])]
  {
    var name := first + " " + rest;
    assert name == first + [' '] + rest;
    SplitAtSep(first, ' ', rest);
    SplitNoSep(rest, ' ');
    var parts := Split(name, ' ');
    assert parts == [first, rest];
    assert parts[..2] == parts;
    assert FirstChars(parts) == [first[0], rest[0]] by {
      assert parts[1..] == [rest];
      assert parts[1..][1..] == [];
    }
  }

  /** Words after the second never contribute. */
  lemma InitialsIgnoreLaterWords(first: string, second: string, more: string)
    requires ' ' !in first && ' ' !in second
    ensures Initials(Some(first + " " + second + " " + more)) == Initials(Some(first + " " + second))
  {
    var long := first + " " + second + " " + more;
    var short := first + " " + second;
    var rest := second + [' '] + more;
    assert long == first + [' '] + rest;
    assert short == first + [' '] + second;
    SplitAtSep(first, ' ', rest);
    SplitAtSep(second, ' ', more);
    SplitAtSep(first, ' ', second);
    SplitNoSep(second, ' ');
    var ps1 := Split(long, ' ');
    var ps2 := Split(short, ' ');
    assert ps1 == [first] + ([second] + Split(more, ' '));
    assert ps2 == [first] + [second];
    assert ps1[..2] == [first, second] == ps2[..2];
    assert Initials(Some(long)) == ToUpper(FirstChars(ps1[..2]));
    assert Initials(Some(short)) == ToUpper(FirstChars(ps2[..2]));
  }

  /** getTechStatusColor: five known statuses, grey otherwise. */
  function TechStatusColor(status: string): (r: string)
    ensures r == "#9ca3af" <==> status !in {"available", "on_job", "traveling", "break"}
  {
    match status
    case "available" => "#10b981"
    case "on_job" => "#14b8a6"
    case "traveling" => "#f59e0b"
    case "break" => "#8b5cf6"
    case "off_duty" => "#9ca3af"
    case _ => "#9ca3af"
  }

  /** getJobStatusColor: seven known statuses, zinc otherwise. */
  function JobStatusColor(status: string): (r: string)
    ensures r == "#71717a" <==> status !in {"scheduled", "en_route", "on_site", "in_progress", "completed", "cancelled"}
  {
    match status
    case "unscheduled" => "#71717a"
    case "scheduled" => "#14b8a6"
    case "en_route" => "#f59e0b"
    case "on_site" => "#8b5cf6"
    case "in_progress" => "#3b82f6"
    case "completed" => "#10b981"
    case "cancelled" => "#ef4444"
    case _ => "#71717a"
  }
}
