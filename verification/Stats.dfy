/**
  The stats-graph walk of screen_share/static/js/adapter.js: `walkStats` and `filterStats`.
  Reports refer to each other by id, possibly in cycles, and one visited map is shared by
  all starting points.
 */
module Stats {

  import opened Common

  /** What a property of a report can hold. */
  datatype Value = One(id: string) | Many(ids: seq<string>) | Other

  datatype Property = Property(name: string, value: Value)

  /** A report: its `id`, its `type` and its other properties in `Object.keys` order. */
  datatype Stat = Stat(id: string, kind: string, properties: seq<Property>)

  /** A JavaScript `Map` of reports: insertion order and contents. */
  datatype Report = Report(order: seq<string>, at: map<string, Stat>)

  /** Every entry is filed under its own id, and `forEach` visits every entry. */
  ghost predicate Keyed(r: Report) {
    && (forall k :: k in r.order <==> k in r.at)
    && (forall k :: k in r.at ==> r.at[k].id == k)
  }

  /** A property named `...Ids` holds a list, or its `forEach` would throw. */
  ghost predicate WellTyped(r: Report) {
    forall k, i :: k in r.at && 0 <= i < |r.at[k].properties| && EndsWith(r.at[k].properties[i].name, "Ids")
      ==> r.at[k].properties[i].value.Many?
  }

  predicate EndsWith(s: string, suffix: string) {
    |s| >= |suffix| && s[|s| - |suffix|..] == suffix
  }

  /** The value of a property, or none. */
  function Get(properties: seq<Property>, name: string): Option<Value> {
    if properties == [] then None
    else if properties[0].name == name then Some(properties[0].value)
    else Get(properties[1..], name)
  }

  /** The ids one property refers to. */
  function Targets(p: Property): seq<string> {
    if EndsWith(p.name, "Id") then (if p.value.One? then [p.value.id] else [])
    else if EndsWith(p.name, "Ids") then (if p.value.Many? then p.value.ids else [])
    else []
  }

  ghost predicate Refers(s: Stat, id: string) {
    exists k :: 0 <= k < |s.properties| && id in Targets(s.properties[k])
  }

  /** A chain of references through reports that are there. */
  ghost predicate Path(at: map<string, Stat>, p: seq<string>) {
    && p != []
    && (forall i :: 0 <= i < |p| ==> p[i] in at)
    && (forall i :: 0 <= i < |p| - 1 ==> Refers(at[p[i]], p[i + 1]))
  }

  ghost predicate Joins(at: map<string, Stat>, p: seq<string>, a: string, b: string) {
    Path(at, p) && p[0] == a && p[|p| - 1] == b
  }

  ghost predicate Reaches(at: map<string, Stat>, a: string, b: string) {
    exists p :: Joins(at, p, a, b)
  }

  lemma ReachesSelf(at: map<string, Stat>, a: string)
    requires a in at
    ensures Reaches(at, a, a)
  {
    assert Joins(at, [a], a, a);
  }

  lemma ReachesOn(at: map<string, Stat>, a: string, b: string, c: string)
    requires a in at && b in at && Refers(at[a], b) && Reaches(at, b, c)
    ensures Reaches(at, a, c)
  {
    var p :| Joins(at, p, b, c);
    var q := [a] + p;
    assert forall i :: 0 < i < |q| ==> q[i] == p[i - 1];
    assert Joins(at, q, a, c);
  }

  /** The references of `s` that lead anywhere lead into `seen`. */
  ghost predicate Settled(at: map<string, Stat>, seen: set<string>, s: Stat) {
    forall id :: Refers(s, id) && id in at ==> id in seen
  }

  lemma {:induction false} ClosedHoldsPath(at: map<string, Stat>, seen: set<string>, p: seq<string>)
    requires Path(at, p) && p[0] in seen
    requires forall id :: id in seen && id in at ==> Settled(at, seen, at[id])
    ensures p[|p| - 1] in seen
    decreases |p|
  {
    if |p| > 1 {
      assert Refers(at[p[0]], p[1]);
      ClosedHoldsPath(at, seen, p[1..]);
    }
  }

  lemma ClosedHolds(at: map<string, Stat>, seen: set<string>, a: string, b: string)
    requires Reaches(at, a, b) && a in seen
    requires forall id :: id in seen && id in at ==> Settled(at, seen, at[id])
    ensures b in seen
  {
    var p :| Joins(at, p, a, b);
    ClosedHoldsPath(at, seen, p);
  }

  /** The visited map, which every call of a walk updates. */
  class ResultSet {
    var entries: map<string, Stat>

    constructor ()
      ensures entries == map[]
    {
      entries := map[];
    }
  }

  /** What a walk may add, whatever it started from: reports reachable from `root`, with nothing left out behind them. */
  ghost predicate Grown(at: map<string, Stat>, root: string, before: map<string, Stat>, after: map<string, Stat>) {
    && (forall id :: id in before ==> id in after && after[id] == before[id])
    && (forall id :: id in after && id !in before ==> id in at && after[id] == at[id] && Reaches(at, root, id))
  }

  ghost predicate Finished(at: map<string, Stat>, before: map<string, Stat>, after: map<string, Stat>) {
    forall id :: id in after && id !in before ==> id in at && Settled(at, after.Keys, at[id])
  }

  ghost function Unseen(at: map<string, Stat>, seen: map<string, Stat>): set<string> {
    at.Keys - seen.Keys
  }

  lemma FewerUnseen(at: map<string, Stat>, a: map<string, Stat>, b: map<string, Stat>)
    requires a.Keys <= b.Keys
    ensures |Unseen(at, b)| <= |Unseen(at, a)|
    ensures (exists id :: id in b && id !in a && id in at) ==> |Unseen(at, b)| < |Unseen(at, a)|
  {
    var gone := Unseen(at, a) - Unseen(at, b);
    assert Unseen(at, a) == Unseen(at, b) + gone;
    if id :| id in b && id !in a && id in at {
      assert id in gone;
    }
  }

  /**
    `walkStats`: adds everything reachable from `base` that is not hidden behind an entry
    already there.
   */
  method WalkStats(report: Report, base: Option<Stat>, resultSet: ResultSet)
    requires Keyed(report) && WellTyped(report)
    requires base.Some? ==> base.value.id in report.at && report.at[base.value.id] == base.value
    modifies resultSet
    ensures base.None? ==> resultSet.entries == old(resultSet.entries)
    ensures base.Some? ==> base.value.id in resultSet.entries
    ensures base.Some? ==> Grown(report.at, base.value.id, old(resultSet.entries), resultSet.entries)
    ensures Finished(report.at, old(resultSet.entries), resultSet.entries)
    decreases |Unseen(report.at, resultSet.entries)|, 0
  {
    Idle(report.at, if base.Some? then base.value.id else "", resultSet.entries);
    hide *;
    if base.None? || base.value.id in resultSet.entries {
      return;
    }
    var stat := base.value;
    ghost var before := resultSet.entries;
    resultSet.entries := resultSet.entries[stat.id := stat];
    Enter(report.at, stat, before);
    for k := 0 to |stat.properties|
      invariant Midway(report.at, stat, before, resultSet.entries)
      invariant Followed(report.at, stat, k, resultSet.entries)
    {
      MidwayFewer(report.at, stat, before, resultSet.entries);
      WalkProperty(report, stat, k, resultSet, before);
    }
    Leave(report.at, stat, before, resultSet.entries);
  }

  lemma Idle(at: map<string, Stat>, root: string, entries: map<string, Stat>)
    ensures Grown(at, root, entries, entries) && Finished(at, entries, entries)
  {
  }

  lemma GrownKeeps(at: map<string, Stat>, root: string, a: map<string, Stat>, b: map<string, Stat>)
    requires Grown(at, root, a, b)
    ensures a.Keys <= b.Keys
  {
  }

  lemma Enter(at: map<string, Stat>, stat: Stat, before: map<string, Stat>)
    requires stat.id in at && at[stat.id] == stat && stat.id !in before
    ensures Midway(at, stat, before, before[stat.id := stat])
    ensures Followed(at, stat, 0, before[stat.id := stat])
  {
    ReachesSelf(at, stat.id);
  }

  lemma MidwayFewer(at: map<string, Stat>, stat: Stat, before: map<string, Stat>, now: map<string, Stat>)
    requires Midway(at, stat, before, now) && stat.id in at
    ensures |Unseen(at, now)| < |Unseen(at, before)|
  {
    FewerUnseen(at, before, now);
  }

  /** With all its references followed, `stat` is as finished as the rest. */
  lemma Leave(at: map<string, Stat>, stat: Stat, before: map<string, Stat>, now: map<string, Stat>)
    requires Midway(at, stat, before, now) && stat.id in at && at[stat.id] == stat
    requires Followed(at, stat, |stat.properties|, now)
    ensures stat.id in now && Grown(at, stat.id, before, now) && Finished(at, before, now)
  {
    hide Grown, Targets;
    assert Settled(at, now.Keys, stat);
  }

  /** `stat` has been entered and its references are being followed. */
  ghost predicate Midway(at: map<string, Stat>, stat: Stat, before: map<string, Stat>, now: map<string, Stat>) {
    && stat.id in now && stat.id !in before
    && Grown(at, stat.id, before, now)
    && Finished(at, before[stat.id := stat], now)
  }

  /** The first `k` properties of `stat` lead to entries. */
  ghost predicate Followed(at: map<string, Stat>, stat: Stat, k: nat, now: map<string, Stat>)
    requires k <= |stat.properties|
  {
    forall j, id :: 0 <= j < k && id in Targets(stat.properties[j]) && id in at ==> id in now
  }

  /** One property of a report that is being walked. */
  method WalkProperty(report: Report, stat: Stat, k: nat, resultSet: ResultSet, ghost before: map<string, Stat>)
    requires Keyed(report) && WellTyped(report) && stat.id in report.at && report.at[stat.id] == stat
    requires k < |stat.properties| && Midway(report.at, stat, before, resultSet.entries) && Followed(report.at, stat, k, resultSet.entries)
    modifies resultSet
    ensures Midway(report.at, stat, before, resultSet.entries)
    ensures Followed(report.at, stat, k + 1, resultSet.entries)
    decreases |Unseen(report.at, resultSet.entries)|, 3
  {
    ghost var start := resultSet.entries;
    hide Midway, Unseen, Keyed;
    var p := stat.properties[k];
    if EndsWith(p.name, "Id") {
      if p.value.One? {
        WalkId(report, stat, k, p.value.id, resultSet, before);
      }
    } else if EndsWith(p.name, "Ids") {
      WalkIds(report, stat, k, p.value.ids, resultSet, before);
    }
    hide EndsWith;
    FollowedOn(report.at, stat, k, start, resultSet.entries);
  }

  lemma FollowedOn(at: map<string, Stat>, stat: Stat, k: nat, a: map<string, Stat>, b: map<string, Stat>)
    requires k < |stat.properties| && Followed(at, stat, k, a) && a.Keys <= b.Keys
    requires forall id :: id in Targets(stat.properties[k]) && id in at ==> id in b
    ensures Followed(at, stat, k + 1, b)
  {
    hide Targets;
  }

  /** Following a list of references. */
  method WalkIds(report: Report, stat: Stat, k: nat, ids: seq<string>, resultSet: ResultSet, ghost before: map<string, Stat>)
    requires Keyed(report) && WellTyped(report) && stat.id in report.at && report.at[stat.id] == stat
    requires k < |stat.properties| && ids == Targets(stat.properties[k]) && Midway(report.at, stat, before, resultSet.entries)
    modifies resultSet
    ensures Midway(report.at, stat, before, resultSet.entries)
    ensures old(resultSet.entries).Keys <= resultSet.entries.Keys
    ensures forall id :: id in ids && id in report.at ==> id in resultSet.entries
    decreases |Unseen(report.at, resultSet.entries)|, 2
  {
    hide Midway, Unseen, Keyed, WellTyped, Targets;
    for i := 0 to |ids|
      invariant Midway(report.at, stat, before, resultSet.entries)
      invariant old(resultSet.entries).Keys <= resultSet.entries.Keys
      invariant forall j :: 0 <= j < i && ids[j] in report.at ==> ids[j] in resultSet.entries
    {
      FewerUnseen(report.at, old(resultSet.entries), resultSet.entries);
      WalkId(report, stat, k, ids[i], resultSet, before);
    }
  }

  /** Following one reference. */
  method WalkId(report: Report, stat: Stat, k: nat, id: string, resultSet: ResultSet, ghost before: map<string, Stat>)
    requires Keyed(report) && WellTyped(report) && stat.id in report.at && report.at[stat.id] == stat
    requires k < |stat.properties| && id in Targets(stat.properties[k]) && Midway(report.at, stat, before, resultSet.entries)
    modifies resultSet
    ensures Midway(report.at, stat, before, resultSet.entries)
    ensures old(resultSet.entries).Keys <= resultSet.entries.Keys
    ensures id in report.at ==> id in resultSet.entries
    decreases |Unseen(report.at, resultSet.entries)|, 1
  {
    ghost var now := resultSet.entries;
    WalkStats(report, if id in report.at then Some(report.at[id]) else None, resultSet);
    if id in report.at {
      forall x | Reaches(report.at, id, x)
        ensures Reaches(report.at, stat.id, x)
      {
        assert Refers(stat, id);
        ReachesOn(report.at, stat.id, id, x);
      }
    }
    StillMidway(report.at, stat, before, now, resultSet.entries);
  }

  lemma StillMidway(at: map<string, Stat>, stat: Stat, before: map<string, Stat>, now: map<string, Stat>, later: map<string, Stat>)
    requires Midway(at, stat, before, now) && Grown(at, stat.id, now, later) && Finished(at, now, later)
    ensures Midway(at, stat, before, later)
  {
    forall id | id in later && id !in before[stat.id := stat]
      ensures id in at && Settled(at, later.Keys, at[id])
    {
      if id in now {
        assert Settled(at, now.Keys, at[id]);
      }
    }
  }

  // Filtering.

  /** A `track` report for the track. */
  predicate IsTrack(s: Stat, track: string) {
    s.kind == "track" && Get(s.properties, "trackIdentifier") == Some(One(track))
  }

  function StreamKind(outbound: bool): string {
    if outbound then "outbound-rtp" else "inbound-rtp"
  }

  predicate StreamOf(s: Stat, outbound: bool, trackStat: Stat) {
    s.kind == StreamKind(outbound) && Get(s.properties, "trackId") == Some(One(trackStat.id))
  }

  /** The rtp reports that belong to the track, from which the walk starts. */
  ghost predicate IsRoot(at: map<string, Stat>, track: string, outbound: bool, id: string) {
    id in at && exists t :: t in at && IsTrack(at[t], track) && StreamOf(at[id], outbound, at[t])
  }

  ghost predicate Wanted(at: map<string, Stat>, track: string, outbound: bool, id: string) {
    exists root :: IsRoot(at, track, outbound, root) && Reaches(at, root, id)
  }

  /** The visited map holds wanted reports, each with everything it refers to. */
  ghost predicate Good(at: map<string, Stat>, track: string, outbound: bool, entries: map<string, Stat>) {
    && (forall id :: id in entries ==> id in at && entries[id] == at[id] && Wanted(at, track, outbound, id))
    && (forall id :: id in entries ==> id in at && Settled(at, entries.Keys, at[id]))
  }

  lemma WalkedFromRoot(at: map<string, Stat>, track: string, outbound: bool, root: string, a: map<string, Stat>, b: map<string, Stat>)
    requires Good(at, track, outbound, a) && IsRoot(at, track, outbound, root)
    requires Grown(at, root, a, b) && Finished(at, a, b)
    ensures Good(at, track, outbound, b)
  {
    forall id | id in b
      ensures id in at && Settled(at, b.Keys, at[id]) && Wanted(at, track, outbound, id)
    {
      if id in a {
        assert Settled(at, a.Keys, at[id]);
      }
    }
  }

  /** A map that holds all roots and is closed under reference holds everything wanted. */
  lemma NothingMissing(at: map<string, Stat>, track: string, outbound: bool, entries: map<string, Stat>)
    requires Good(at, track, outbound, entries)
    requires forall root :: IsRoot(at, track, outbound, root) ==> root in entries
    ensures forall id :: id in entries <==> Wanted(at, track, outbound, id)
  {
    hide IsRoot, Settled, Reaches;
    forall id | Wanted(at, track, outbound, id)
      ensures id in entries
    {
      var root :| IsRoot(at, track, outbound, root) && Reaches(at, root, id);
      ClosedHolds(at, entries.Keys, root, id);
    }
  }

  /**
    `filterStats`: exactly the reports reachable from the rtp reports of the track, cycles
    and sharing included; no track, no reports.
   */
  method FilterStats(report: Report, track: Option<string>, outbound: bool) returns (filtered: ResultSet)
    requires Keyed(report) && WellTyped(report)
    ensures fresh(filtered)
    ensures track.None? ==> filtered.entries == map[]
    ensures track.Some? ==> forall id :: id in filtered.entries <==> Wanted(report.at, track.value, outbound, id)
    ensures forall id :: id in filtered.entries ==> id in report.at && filtered.entries[id] == report.at[id]
  {
    filtered := new ResultSet();
    if track.None? {
      return;
    }
    var trackStats := TrackStats(report, track.value);
    hide Good, StreamOf, WellTyped, Wanted, IsTrack;
    for t := 0 to |trackStats|
      invariant Good(report.at, track.value, outbound, filtered.entries)
      invariant forall j, id :: 0 <= j < t && id in report.at && StreamOf(report.at[id], outbound, trackStats[j]) ==> id in filtered.entries
    {
      FilterTrack(report, track.value, outbound, trackStats[t], filtered);
    }
    RootsCovered(report, track.value, outbound, trackStats, filtered.entries);
    NothingMissing(report.at, track.value, outbound, filtered.entries);
    GoodEntries(report.at, track.value, outbound, filtered.entries);
  }

  lemma RootsCovered(report: Report, track: string, outbound: bool, trackStats: seq<Stat>, entries: map<string, Stat>)
    requires forall id :: id in report.at && IsTrack(report.at[id], track) ==> report.at[id] in trackStats
    requires forall j, id :: 0 <= j < |trackStats| && id in report.at && StreamOf(report.at[id], outbound, trackStats[j]) ==> id in entries
    ensures forall root :: IsRoot(report.at, track, outbound, root) ==> root in entries
  {
    hide StreamOf, IsTrack;
  }

  lemma GoodEntries(at: map<string, Stat>, track: string, outbound: bool, entries: map<string, Stat>)
    requires Good(at, track, outbound, entries)
    ensures forall id :: id in entries ==> id in at && entries[id] == at[id]
  {
  }

  /** The track reports of the track: the first loop of `filterStats`. */
  method TrackStats(report: Report, track: string) returns (found: seq<Stat>)
    requires Keyed(report)
    ensures forall s :: s in found ==> s.id in report.at && report.at[s.id] == s && IsTrack(s, track)
    ensures forall id :: id in report.at && IsTrack(report.at[id], track) ==> report.at[id] in found
  {
    hide IsTrack;
    found := [];
    for i := 0 to |report.order|
      invariant forall s :: s in found ==> s.id in report.at && report.at[s.id] == s && IsTrack(s, track)
      invariant forall j :: 0 <= j < i && IsTrack(report.at[report.order[j]], track) ==> report.at[report.order[j]] in found
    {
      var value := report.at[report.order[i]];
      if IsTrack(value, track) {
        found := found + [value];
      }
    }
  }

  /** The inner loop of `filterStats`, for one track report. */
  method FilterTrack(report: Report, ghost track: string, outbound: bool, trackStat: Stat, filtered: ResultSet)
    requires Keyed(report) && WellTyped(report) && Good(report.at, track, outbound, filtered.entries)
    requires trackStat.id in report.at && report.at[trackStat.id] == trackStat && IsTrack(trackStat, track)
    modifies filtered
    ensures Good(report.at, track, outbound, filtered.entries)
    ensures old(filtered.entries).Keys <= filtered.entries.Keys
    ensures forall id :: id in report.at && StreamOf(report.at[id], outbound, trackStat) ==> id in filtered.entries
  {
    hide Good, StreamOf, IsTrack, Grown, Finished, WellTyped;
    for i := 0 to |report.order|
      invariant Good(report.at, track, outbound, filtered.entries)
      invariant old(filtered.entries).Keys <= filtered.entries.Keys
      invariant forall j :: 0 <= j < i && StreamOf(report.at[report.order[j]], outbound, trackStat) ==> report.order[j] in filtered.entries
    {
      var stats := report.at[report.order[i]];
      if StreamOf(stats, outbound, trackStat) {
        ghost var before := filtered.entries;
        WalkStats(report, Some(stats), filtered);
        assert IsRoot(report.at, track, outbound, stats.id);
        WalkedFromRoot(report.at, track, outbound, stats.id, before, filtered.entries);
        GrownKeeps(report.at, stats.id, before, filtered.entries);
      }
    }
  }
}
