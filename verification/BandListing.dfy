/** Listing the bands that match a request, from the two-level table of all bands. */
module BandListing {
  import opened Wrappers

  type BandId = string
  type Version = nat

  const PHY_UNKNOWN: Version := 0

  /** A Go map from versions to band definitions. Maps are references: whoever holds one sees its updates. */
  class VersionMap<Band> {
    var entries: map<Version, Band>

    constructor (entries: map<Version, Band>)
      ensures this.entries == entries
    {
      this.entries := entries;
    }
  }

  /** The outer map. A clone of it is a new map, but shares the inner ones. */
  class BandMap<Band> {
    var entries: map<BandId, VersionMap<Band>>

    constructor (entries: map<BandId, VersionMap<Band>>)
      ensures this.entries == entries
    {
      this.entries := entries;
    }

    ghost function Contents(): map<BandId, map<Version, Band>>
      reads this, entries.Values
    {
      map id | id in entries :: entries[id].entries
    }
  }

  datatype Request = Request(bandId: BandId, phyVersion: Version)

  /** The entry belongs to a band and version that the request asks for. */
  ghost predicate Wanted(r: Request, id: BandId, v: Version) {
    (r.bandId == "" || id == r.bandId) && (r.phyVersion == PHY_UNKNOWN || v == r.phyVersion)
  }

  /** The response holds exactly the wanted entries of the table, and no band without the wanted version. */
  ghost predicate ExactFilter<Band(!new)>(table: map<BandId, map<Version, Band>>, r: Request, res: map<BandId, map<Version, Band>>) {
    && (forall id :: id in res <==>
          id in table && (r.bandId == "" || id == r.bandId) && (r.phyVersion == PHY_UNKNOWN || r.phyVersion in table[id]))
    && (forall id, v :: (id in res && v in res[id]) <==> (id in table && v in table[id] && Wanted(r, id, v)))
    && forall id, v | id in res && v in res[id] :: id in table && v in table[id] && res[id][v] == table[id][v]
  }

  /** The bands with that version, each with it alone. */
  ghost function Selected<Band>(table: map<BandId, map<Version, Band>>, version: Version): map<BandId, map<Version, Band>> {
    map id | id in table && version in table[id] :: map[version := table[id][version]]
  }

  /** The same part way: the bands in todo are as they were. */
  ghost function SelectedBut<Band>(table: map<BandId, map<Version, Band>>, todo: set<BandId>, version: Version): map<BandId, map<Version, Band>> {
    map id | id in table && (id in todo || version in table[id]) :: if id in todo then table[id] else map[version := table[id][version]]
  }

  lemma SelectedOneMore<Band>(table: map<BandId, map<Version, Band>>, todo: set<BandId>, bandId: BandId, version: Version)
    requires bandId in table && bandId !in todo
    ensures SelectedOne(SelectedBut(table, todo + {bandId}, version), bandId, version) == SelectedBut(table, todo, version)
  {
  }

  lemma SelectedEnds<Band>(table: map<BandId, map<Version, Band>>, version: Version)
    ensures SelectedBut(table, table.Keys, version) == table
    ensures SelectedBut(table, {}, version) == Selected(table, version)
  {
  }

  /** Keeps one version of each band. The map is updated in place while it is iterated: each of the
      original bands is visited once, in any order, and deleted or given a new inner map. */
  method SelectVersion<Band(!new)>(filtered: BandMap<Band>, version: Version)
    modifies filtered
    ensures filtered.Contents() == Selected(old(filtered.Contents()), version)
    ensures forall id | id in filtered.entries :: fresh(filtered.entries[id])
  {
    hide SelectedBut, Selected, SelectedOne;
    ghost var before := filtered.Contents();
    SelectedEnds(before, version);
    var todo := filtered.entries.Keys;
    assert todo == before.Keys;
    while todo != {}
      invariant todo <= before.Keys
      invariant forall id | id in todo :: id in filtered.entries
      invariant filtered.Contents() == SelectedBut(before, todo, version)
      invariant forall id | id in filtered.entries && id !in todo :: fresh(filtered.entries[id])
      decreases |todo|
    {
      var bandId :| bandId in todo;
      ghost var rest := todo - {bandId};
      assert todo == rest + {bandId};
      todo := todo - {bandId};
      SelectOne(filtered, bandId, version);
      SelectedOneMore(before, todo, bandId, version);
    }
  }

  ghost function SelectedOne<Band>(table: map<BandId, map<Version, Band>>, bandId: BandId, version: Version): map<BandId, map<Version, Band>>
    requires bandId in table
  {
    if version in table[bandId] then table[bandId := map[version := table[bandId][version]]] else table - {bandId}
  }

  method SelectOne<Band(!new)>(filtered: BandMap<Band>, bandId: BandId, version: Version)
    requires bandId in filtered.entries
    modifies filtered
    ensures filtered.Contents() == SelectedOne(old(filtered.Contents()), bandId, version)
    ensures forall id | id in filtered.entries :: id in old(filtered.entries)
    ensures forall id | id in old(filtered.entries) && id != bandId :: id in filtered.entries
    ensures forall id | id in filtered.entries ::
              if id == bandId then fresh(filtered.entries[id]) else filtered.entries[id] == old(filtered.entries)[id]
  {
    var versions := filtered.entries[bandId];
    if version !in versions.entries {
      filtered.entries := filtered.entries - {bandId};
    } else {
      var selected := new VersionMap(map[]);
      filtered.entries := filtered.entries[bandId := selected];
      selected.entries := selected.entries[version := versions.entries[version]];
    }
  }

  /** The descriptions of the bands that are left. */
  method Describe<Band(!new)>(filtered: BandMap<Band>) returns (res: map<BandId, map<Version, Band>>)
    ensures res == filtered.Contents()
  {
    res := map[];
    var todo := filtered.entries.Keys;
    while todo != {}
      invariant todo <= filtered.entries.Keys
      invariant res.Keys == filtered.entries.Keys - todo
      invariant forall id | id in res :: res[id] == filtered.entries[id].entries
      decreases |todo|
    {
      var bandId :| bandId in todo;
      todo := todo - {bandId};
      res := res[bandId := filtered.entries[bandId].entries];
    }
  }

  /** The bands with the given ID, which may be left open. */
  ghost function Asked<Band>(table: map<BandId, map<Version, Band>>, bandId: BandId): map<BandId, map<Version, Band>> {
    map id | id in table && (bandId == "" || id == bandId) :: table[id]
  }

  lemma FilterIsExact<Band(!new)>(table: map<BandId, map<Version, Band>>, r: Request)
    ensures var asked := Asked(table, r.bandId);
            ExactFilter(table, r, if r.phyVersion != PHY_UNKNOWN then Selected(asked, r.phyVersion) else asked)
  {
  }

  /** The bands with the given ID in a map of their own, or none if there is no such band. */
  method BandsAsked<Band(!new)>(all: BandMap<Band>, bandId: BandId) returns (filteredVersions: BandMap?<Band>)
    ensures filteredVersions == null <==> bandId != "" && bandId !in all.entries
    ensures filteredVersions != null ==> fresh(filteredVersions) && filteredVersions.Contents() == Asked(all.Contents(), bandId)
  {
    filteredVersions := new BandMap<Band>(map[]);
    if bandId != "" {
      if bandId !in all.entries {
        return null;
      }
      filteredVersions.entries := filteredVersions.entries[bandId := all.entries[bandId]];
      assert bandId in filteredVersions.entries;
    }
    if |filteredVersions.entries| == 0 {
      filteredVersions := new BandMap(all.entries);
    }
  }

  method ListBands<Band(!new)>(all: BandMap<Band>, r: Request) returns (res: Option<map<BandId, map<Version, Band>>>)
    ensures res.None? <==> r.bandId != "" && r.bandId !in all.entries
    ensures res.Some? ==> ExactFilter(all.Contents(), r, res.value)
    ensures all.entries == old(all.entries) && all.Contents() == old(all.Contents())
  {
    hide ExactFilter, Selected, Asked;
    ghost var table := all.Contents();
    var filteredVersions := BandsAsked(all, r.bandId);
    if filteredVersions == null {
      return None;
    }
    FilterIsExact(table, r);
    if r.phyVersion != PHY_UNKNOWN {
      SelectVersion(filteredVersions, r.phyVersion);
    }
    assert all.Contents() == table;
    var descriptions := Describe(filteredVersions);
    return Some(descriptions);
  }
}
