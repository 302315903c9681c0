/**
 Writing a topology as a directory tree and reading it back (internal/topology/writer.go,
 internal/topology/reader.go).

 The file system is a set of directories and a map of files, by their path below the root.  What a
 file holds is kept as the value that was encoded.
 */
module TreeFiles {
  import opened Wrappers
  import opened Strings
  import opened Persist

  type Path = seq<string>

  datatype Content =
    | FacilityFile(f: Facility)
    | SiteFile(s: Site)
    | GroupFile(g: Group)
    | DowntimeFile(ds: seq<Downtime>)

  datatype FS = FS(dirs: set<Path>, files: map<Path, Content>)

  // Decoding a file as one kind of entity; it may succeed on a file of another kind.
  datatype Codec = Codec(
    facility: Content -> Option<Facility>,
    site: Content -> Option<Site>,
    group: Content -> Option<Group>,
    downtimes: Content -> Option<seq<Downtime>>
  )

  // ---- the tree to write ----

  // A name that is one component of a path.
  predicate Plain(name: string) {
    name != "" && '/' !in name && name != "." && name != ".."
  }

  // Every site is in a facility and every group in a site, and all have names a path can have.
  predicate Placed(t: Topology) {
    && t.siteFacility.Keys == t.sites.Keys && (forall s | s in t.sites :: t.siteFacility[s] in t.facilities)
    && t.groupSite.Keys == t.groups.Keys && (forall g | g in t.groups :: t.groupSite[g] in t.sites)
    && (forall n | n in t.facilities.Keys + t.sites.Keys + t.groups.Keys :: Plain(n))
  }

  function SiteDir(t: Topology, s: string): Path
    requires Placed(t) && s in t.sites
  {
    [t.siteFacility[s], s]
  }

  function SitePath(t: Topology, s: string): Path
    requires Placed(t) && s in t.sites
  {
    [t.siteFacility[s], s, "SITE.yaml"]
  }

  function InGroupDir(t: Topology, g: string, file: string): Path
    requires Placed(t) && g in t.groups
  {
    [t.siteFacility[t.groupSite[g]], t.groupSite[g], file]
  }

  function GroupPath(t: Topology, g: string): Path
    requires Placed(t) && g in t.groups
  {
    InGroupDir(t, g, g + ".yaml")
  }

  function DowntimePath(t: Topology, g: string): Path
    requires Placed(t) && g in t.groups
  {
    InGroupDir(t, g, g + "_downtime.yaml")
  }

  predicate HasDowntimes(t: Topology, g: string) {
    g in t.groups && g in t.downtimes && t.downtimes[g] != []
  }

  // Decoding gives back what was encoded of this tree's own values.  It need not do so of every value:
  // empty maps that are left out of a file come back as absent.
  ghost predicate Faithful(codec: Codec, t: Topology) {
    && (forall f :: f in t.facilities ==> codec.facility(FacilityFile(t.facilities[f])) == Some(t.facilities[f]))
    && (forall s :: s in t.sites ==> codec.site(SiteFile(t.sites[s])) == Some(t.sites[s]))
    && (forall g :: g in t.groups ==> codec.group(GroupFile(t.groups[g])) == Some(t.groups[g]))
    && (forall g :: HasDowntimes(t, g) ==> codec.downtimes(DowntimeFile(t.downtimes[g])) == Some(t.downtimes[g]))
  }

  // Everything encoded of this tree can be decoded at all.
  ghost predicate Decodable(codec: Codec, t: Topology) {
    && (forall f :: f in t.facilities ==> codec.facility(FacilityFile(t.facilities[f])).Some?)
    && (forall s :: s in t.sites ==> codec.site(SiteFile(t.sites[s])).Some?)
    && (forall g :: g in t.groups ==> codec.group(GroupFile(t.groups[g])).Some?)
    && (forall g :: HasDowntimes(t, g) ==> codec.downtimes(DowntimeFile(t.downtimes[g])).Some?)
  }

  ghost predicate WroteFacility(t: Topology, p: Path, c: Content) {
    exists f :: f in t.facilities && p == [f, "FACILITY.yaml"] && c == FacilityFile(t.facilities[f])
  }

  ghost predicate WroteSite(t: Topology, p: Path, c: Content)
    requires Placed(t)
  {
    exists s :: s in t.sites && p == SitePath(t, s) && c == SiteFile(t.sites[s])
  }

  ghost predicate WroteGroup(t: Topology, p: Path, c: Content)
    requires Placed(t)
  {
    exists g :: g in t.groups && p == GroupPath(t, g) && c == GroupFile(t.groups[g])
  }

  ghost predicate WroteDowntimes(t: Topology, p: Path, c: Content)
    requires Placed(t)
  {
    exists g :: HasDowntimes(t, g) && p == DowntimePath(t, g) && c == DowntimeFile(t.downtimes[g])
  }

  // Something the tree writes to a path.
  ghost predicate Wrote(t: Topology, p: Path, c: Content)
    requires Placed(t)
  {
    WroteFacility(t, p, c) || WroteSite(t, p, c) || WroteGroup(t, p, c) || WroteDowntimes(t, p, c)
  }

  function FacilityDirsOf(t: Topology): set<Path> {
    set f | f in t.facilities :: [f]
  }

  function SiteDirsOf(t: Topology, names: set<string>): set<Path>
    requires Placed(t) && names <= t.sites.Keys
  {
    set s | s in names :: SiteDir(t, s)
  }

  function FacilityPaths(t: Topology): set<Path> {
    set f | f in t.facilities :: [f, "FACILITY.yaml"]
  }

  function SitePaths(t: Topology, names: set<string>): set<Path>
    requires Placed(t) && names <= t.sites.Keys
  {
    set s | s in names :: SitePath(t, s)
  }

  // A file system that holds the tree: exactly its directories, and at each path of it something the
  // tree writes there.
  ghost predicate IsWritten(t: Topology, fs: FS)
    requires Placed(t)
  {
    && fs.dirs == FacilityDirsOf(t) + SiteDirsOf(t, t.sites.Keys)
    && (forall p :: p in fs.files ==> Wrote(t, p, fs.files[p]))
    && FacilityPaths(t) + SitePaths(t, t.sites.Keys) <= fs.files.Keys
    && (forall g :: g in t.groups ==> GroupPath(t, g) in fs.files)
    && (forall g :: HasDowntimes(t, g) ==> DowntimePath(t, g) in fs.files)
  }

  // ---- writing ----

  method WriteTree(t: Topology) returns (r: Option<FS>)
    requires Placed(t)
    ensures r.Some? <==> "FACILITY.yaml" !in t.sites
    ensures r.Some? ==> IsWritten(t, r.value)
  {
    var dirs, files := WriteFacilities(t);
    var sites: bool;
    sites, dirs, files := WriteSites(t, dirs, files);
    if !sites {
      return None;
    }
    files := WriteGroups(t, files);
    r := Some(FS(dirs, files));
  }

  method WriteFacilities(t: Topology) returns (dirs: set<Path>, files: map<Path, Content>)
    requires Placed(t)
    ensures dirs == FacilityDirsOf(t) && files.Keys == FacilityPaths(t)
    ensures forall p :: p in files ==> Wrote(t, p, files[p])
  {
    dirs, files := {}, map[];
    var todo := t.facilities.Keys;
    while todo != {}
      invariant todo <= t.facilities.Keys
      invariant dirs == set f | f in t.facilities && f !in todo :: [f]
      invariant files.Keys == set f | f in t.facilities && f !in todo :: [f, "FACILITY.yaml"]
      invariant forall p :: p in files ==> Wrote(t, p, files[p])
      decreases todo
    {
      var f :| f in todo;
      assert WroteFacility(t, [f, "FACILITY.yaml"], FacilityFile(t.facilities[f]));
      dirs := dirs + {[f]};
      files := files[[f, "FACILITY.yaml"] := FacilityFile(t.facilities[f])];
      todo := todo - {f};
    }
  }

  lemma OneMoreSiteDir(t: Topology, todo: set<string>, s: string)
    requires Placed(t) && s in todo && todo <= t.sites.Keys
    ensures SiteDirsOf(t, t.sites.Keys - (todo - {s})) == SiteDirsOf(t, t.sites.Keys - todo) + {SiteDir(t, s)}
    ensures SitePaths(t, t.sites.Keys - (todo - {s})) == SitePaths(t, t.sites.Keys - todo) + {SitePath(t, s)}
  {
    assert t.sites.Keys - (todo - {s}) == (t.sites.Keys - todo) + {s};
  }

  // A site's directory can only be in the way of its facility's own file.
  lemma DirClash(t: Topology, names: set<string>, s: string)
    requires Placed(t) && names <= t.sites.Keys && s in t.sites
    ensures SiteDir(t, s) in FacilityPaths(t) + SitePaths(t, names) <==> s == "FACILITY.yaml"
  {
    assert forall p :: p in SitePaths(t, names) ==> |p| == 3;
    if s == "FACILITY.yaml" {
      assert SiteDir(t, s) == [t.siteFacility[s], "FACILITY.yaml"];
    }
  }

  method WriteSites(t: Topology, dirs0: set<Path>, files0: map<Path, Content>)
    returns (ok: bool, dirs: set<Path>, files: map<Path, Content>)
    requires Placed(t)
    requires dirs0 == FacilityDirsOf(t) && files0.Keys == FacilityPaths(t)
    requires forall p :: p in files0 ==> Wrote(t, p, files0[p])
    ensures ok <==> "FACILITY.yaml" !in t.sites
    ensures ok ==> dirs == dirs0 + SiteDirsOf(t, t.sites.Keys)
    ensures ok ==> files.Keys == FacilityPaths(t) + SitePaths(t, t.sites.Keys)
    ensures ok ==> forall p :: p in files ==> Wrote(t, p, files[p])
  {
    dirs, files := dirs0, files0;
    var todo := t.sites.Keys;
    while todo != {}
      invariant todo <= t.sites.Keys
      invariant "FACILITY.yaml" in t.sites ==> "FACILITY.yaml" in todo
      invariant dirs == dirs0 + SiteDirsOf(t, t.sites.Keys - todo)
      invariant files.Keys == FacilityPaths(t) + SitePaths(t, t.sites.Keys - todo)
      invariant forall p :: p in files ==> Wrote(t, p, files[p])
      decreases todo
    {
      var s :| s in todo;
      DirClash(t, t.sites.Keys - todo, s);
      if SiteDir(t, s) in files {
        return false, dirs, files;
      }
      OneMoreSiteDir(t, todo, s);
      assert WroteSite(t, SitePath(t, s), SiteFile(t.sites[s]));
      dirs := dirs + {SiteDir(t, s)};
      files := files[SitePath(t, s) := SiteFile(t.sites[s])];
      todo := todo - {s};
    }
    assert t.sites.Keys - todo == t.sites.Keys;
    ok := true;
  }

  method WriteGroups(t: Topology, files0: map<Path, Content>) returns (files: map<Path, Content>)
    requires Placed(t) && forall p :: p in files0 ==> Wrote(t, p, files0[p])
    ensures files0.Keys <= files.Keys && forall p :: p in files ==> Wrote(t, p, files[p])
    ensures forall g :: g in t.groups ==> GroupPath(t, g) in files
    ensures forall g :: HasDowntimes(t, g) ==> DowntimePath(t, g) in files
  {
    files := files0;
    var todo := t.groups.Keys;
    while todo != {}
      invariant todo <= t.groups.Keys
      invariant files0.Keys <= files.Keys && forall p :: p in files ==> Wrote(t, p, files[p])
      invariant forall g :: g in t.groups && g !in todo ==> GroupPath(t, g) in files
      invariant forall g :: HasDowntimes(t, g) && g !in todo ==> DowntimePath(t, g) in files
      decreases todo
    {
      var g :| g in todo;
      assert WroteGroup(t, GroupPath(t, g), GroupFile(t.groups[g]));
      assert HasDowntimes(t, g) ==> WroteDowntimes(t, DowntimePath(t, g), DowntimeFile(t.downtimes[g]));
      files := files[GroupPath(t, g) := GroupFile(t.groups[g])];
      if g in t.downtimes && |t.downtimes[g]| > 0 {
        files := files[DowntimePath(t, g) := DowntimeFile(t.downtimes[g])];
      }
      todo := todo - {g};
    }
  }

  // ---- reading ----

  datatype FileKind = Other | SiteItself | DowntimesOf(group: string) | GroupNamed(group: string)

  // What the name of a file in a site's directory says it is.
  function KindOf(file: string): FileKind {
    if !HasSuffix(file, ".yaml") then Other
    else if file == "SITE.yaml" then SiteItself
    else if HasSuffix(file, "_downtime.yaml") then DowntimesOf(TrimSuffix(file, "_downtime.yaml"))
    else GroupNamed(TrimSuffix(file, ".yaml"))
  }

  predicate IsFacilityDir(fs: FS, d: Path) {
    d in fs.dirs && |d| == 1
  }

  predicate IsSiteDir(fs: FS, d: Path) {
    d in fs.dirs && |d| == 2 && [d[0]] in fs.dirs
  }

  predicate IsSiteFile(fs: FS, p: Path) {
    p in fs.files && |p| == 3 && IsSiteDir(fs, p[..2])
  }

  // A missing file leaves the entity empty.
  function ReadFacility(codec: Codec, fs: FS, d: Path): Option<Facility> {
    var p := d + ["FACILITY.yaml"];
    if p in fs.files then codec.facility(fs.files[p])
    else if p in fs.dirs then None
    else Some(Facility(None, map[], None))
  }

  function ReadSite(codec: Codec, fs: FS, d: Path): Option<Site> {
    var p := d + ["SITE.yaml"];
    if p in fs.files then codec.site(fs.files[p])
    else if p in fs.dirs then None
    else Some(Site(None, map[], None))
  }

  ghost predicate Readable(codec: Codec, fs: FS) {
    && (forall d :: IsFacilityDir(fs, d) ==> ReadFacility(codec, fs, d).Some?)
    && (forall d :: IsSiteDir(fs, d) ==> ReadSite(codec, fs, d).Some?)
    && (forall p :: IsSiteFile(fs, p) && KindOf(p[2]).GroupNamed? ==> codec.group(fs.files[p]).Some?)
    && (forall p :: IsSiteFile(fs, p) && KindOf(p[2]).DowntimesOf? ==> codec.downtimes(fs.files[p]).Some?)
  }

  // Site s was read from directory d.
  ghost predicate SiteFrom(codec: Codec, fs: FS, t: Topology, s: string, d: Path) {
    && IsSiteDir(fs, d) && d[1] == s && s in t.sites && s in t.siteFacility
    && t.siteFacility[s] == d[0] && ReadSite(codec, fs, d) == Some(t.sites[s])
  }

  ghost predicate GroupFrom(codec: Codec, fs: FS, t: Topology, g: string, p: Path) {
    && IsSiteFile(fs, p) && KindOf(p[2]) == GroupNamed(g) && g in t.groups && g in t.groupSite
    && t.groupSite[g] == p[1] && codec.group(fs.files[p]) == Some(t.groups[g])
  }

  ghost predicate DowntimesFrom(codec: Codec, fs: FS, t: Topology, g: string, p: Path) {
    && IsSiteFile(fs, p) && KindOf(p[2]) == DowntimesOf(g) && g in t.downtimes
    && codec.downtimes(fs.files[p]) == Some(t.downtimes[g])
  }

  // What has been read once these facility directories, site directories and files are done: everything
  // in the tree comes from one of them, and each of them is in it.
  ghost predicate PartRead(codec: Codec, fs: FS, t: Topology, facs: set<Path>, sites: set<Path>, files: set<Path>) {
    && FacilitiesRead(codec, fs, t, facs)
    && SitesRead(codec, fs, t, sites)
    && GroupsRead(codec, fs, t, files)
    && DowntimesRead(codec, fs, t, files)
  }

  ghost predicate FacilitiesRead(codec: Codec, fs: FS, t: Topology, facs: set<Path>) {
    && (forall d :: d in facs ==> IsFacilityDir(fs, d) && d[0] in t.facilities)
    && (forall f :: f in t.facilities ==> [f] in facs && ReadFacility(codec, fs, [f]) == Some(t.facilities[f]))
  }

  ghost predicate SitesRead(codec: Codec, fs: FS, t: Topology, sites: set<Path>) {
    && t.siteFacility.Keys == t.sites.Keys
    && (forall d :: d in sites ==> IsSiteDir(fs, d) && d[1] in t.sites)
    && (forall s :: s in t.sites ==> exists d :: d in sites && SiteFrom(codec, fs, t, s, d))
  }

  ghost predicate GroupsRead(codec: Codec, fs: FS, t: Topology, files: set<Path>) {
    && t.groupSite.Keys == t.groups.Keys
    && (forall p :: p in files ==> IsSiteFile(fs, p) && (KindOf(p[2]).GroupNamed? ==> KindOf(p[2]).group in t.groups))
    && (forall g :: g in t.groups ==> exists p :: p in files && GroupFrom(codec, fs, t, g, p))
  }

  ghost predicate DowntimesRead(codec: Codec, fs: FS, t: Topology, files: set<Path>) {
    && (forall p :: p in files ==>
          IsSiteFile(fs, p) && (KindOf(p[2]).DowntimesOf? ==> KindOf(p[2]).group in t.downtimes))
    && (forall g :: g in t.downtimes ==> exists p :: p in files && DowntimesFrom(codec, fs, t, g, p))
  }

  function FacilityDirs(fs: FS): set<Path> {
    set d | d in fs.dirs && IsFacilityDir(fs, d)
  }

  // The site directories in these facility directories, and the files in these site directories.
  function SitesBelow(fs: FS, facs: set<Path>): set<Path> {
    set d | d in fs.dirs && IsSiteDir(fs, d) && [d[0]] in facs
  }

  function FilesBelow(fs: FS, sites: set<Path>): set<Path> {
    set p | p in fs.files && IsSiteFile(fs, p) && p[..2] in sites
  }

  lemma BelowBoth(fs: FS, a: set<Path>, b: set<Path>)
    ensures SitesBelow(fs, a + b) == SitesBelow(fs, a) + SitesBelow(fs, b)
    ensures FilesBelow(fs, a + b) == FilesBelow(fs, a) + FilesBelow(fs, b)
  {}

  ghost predicate IsRead(codec: Codec, fs: FS, t: Topology) {
    var sites := SitesBelow(fs, FacilityDirs(fs));
    PartRead(codec, fs, t, FacilityDirs(fs), sites, FilesBelow(fs, sites))
  }

  lemma {:induction false} OneMoreSite(codec: Codec, fs: FS, t: Topology, sites: set<Path>, d: Path, site: Site)
    requires SitesRead(codec, fs, t, sites) && IsSiteDir(fs, d) && ReadSite(codec, fs, d) == Some(site)
    ensures SitesRead(codec, fs, t.(sites := t.sites[d[1] := site], siteFacility := t.siteFacility[d[1] := d[0]]),
      sites + {d})
  {
    hide ReadSite;
    var after := t.(sites := t.sites[d[1] := site], siteFacility := t.siteFacility[d[1] := d[0]]);
    forall s | s in after.sites ensures exists e :: e in sites + {d} && SiteFrom(codec, fs, after, s, e) {
      if s == d[1] {
        assert SiteFrom(codec, fs, after, s, d);
      } else {
        var e :| e in sites && SiteFrom(codec, fs, t, s, e);
        assert SiteFrom(codec, fs, after, s, e);
      }
    }
  }

  lemma {:induction false} OneMoreGroup(codec: Codec, fs: FS, t: Topology, files: set<Path>, p: Path, group: Group)
    requires GroupsRead(codec, fs, t, files) && IsSiteFile(fs, p) && KindOf(p[2]).GroupNamed?
    requires codec.group(fs.files[p]) == Some(group)
    ensures var g := KindOf(p[2]).group;
      GroupsRead(codec, fs, t.(groups := t.groups[g := group], groupSite := t.groupSite[g := p[1]]), files + {p})
  {
    var g := KindOf(p[2]).group;
    var after := t.(groups := t.groups[g := group], groupSite := t.groupSite[g := p[1]]);
    forall h | h in after.groups ensures exists q :: q in files + {p} && GroupFrom(codec, fs, after, h, q) {
      if h == g {
        assert GroupFrom(codec, fs, after, h, p);
      } else {
        var q :| q in files && GroupFrom(codec, fs, t, h, q);
        assert GroupFrom(codec, fs, after, h, q);
      }
    }
  }

  lemma {:induction false} OneMoreDowntimes(codec: Codec, fs: FS, t: Topology, files: set<Path>, p: Path,
                                            ds: seq<Downtime>)
    requires DowntimesRead(codec, fs, t, files) && IsSiteFile(fs, p) && KindOf(p[2]).DowntimesOf?
    requires codec.downtimes(fs.files[p]) == Some(ds)
    ensures DowntimesRead(codec, fs, t.(downtimes := t.downtimes[KindOf(p[2]).group := ds]), files + {p})
  {
    var g := KindOf(p[2]).group;
    var after := t.(downtimes := t.downtimes[g := ds]);
    forall h | h in after.downtimes ensures exists q :: q in files + {p} && DowntimesFrom(codec, fs, after, h, q) {
      if h == g {
        assert DowntimesFrom(codec, fs, after, h, p);
      } else {
        var q :| q in files && DowntimesFrom(codec, fs, t, h, q);
        assert DowntimesFrom(codec, fs, after, h, q);
      }
    }
  }

  // What is read of one part of the tree depends on nothing else in it.
  lemma {:induction false} SamePart(codec: Codec, fs: FS, t: Topology, after: Topology, facs: set<Path>,
                                    sites: set<Path>, files: set<Path>)
    requires PartRead(codec, fs, t, facs, sites, files)
    ensures after.facilities == t.facilities ==> FacilitiesRead(codec, fs, after, facs)
    ensures after.sites == t.sites && after.siteFacility == t.siteFacility ==> SitesRead(codec, fs, after, sites)
    ensures after.groups == t.groups && after.groupSite == t.groupSite ==> GroupsRead(codec, fs, after, files)
    ensures after.downtimes == t.downtimes ==> DowntimesRead(codec, fs, after, files)
  {
    forall s, d | SiteFrom(codec, fs, t, s, d) && after.sites == t.sites && after.siteFacility == t.siteFacility
      ensures SiteFrom(codec, fs, after, s, d) {}
    forall g, p | GroupFrom(codec, fs, t, g, p) && after.groups == t.groups && after.groupSite == t.groupSite
      ensures GroupFrom(codec, fs, after, g, p) {}
    forall g, p | DowntimesFrom(codec, fs, t, g, p) && after.downtimes == t.downtimes
      ensures DowntimesFrom(codec, fs, after, g, p) {}
  }

  // A file of another kind adds nothing.
  lemma {:induction false} OneMoreOther(codec: Codec, fs: FS, t: Topology, files: set<Path>, p: Path)
    requires IsSiteFile(fs, p)
    ensures GroupsRead(codec, fs, t, files) && !KindOf(p[2]).GroupNamed? ==> GroupsRead(codec, fs, t, files + {p})
    ensures DowntimesRead(codec, fs, t, files) && !KindOf(p[2]).DowntimesOf? ==>
      DowntimesRead(codec, fs, t, files + {p})
  {}

  method ReadSiteFile(codec: Codec, fs: FS, t0: Topology, p: Path, ghost facs: set<Path>, ghost sites: set<Path>,
                      ghost files: set<Path>)
    returns (ok: bool, t: Topology)
    requires PartRead(codec, fs, t0, facs, sites, files) && IsSiteFile(fs, p)
    ensures ok ==> PartRead(codec, fs, t, facs, sites, files + {p})
    ensures Readable(codec, fs) ==> ok
  {
    t := t0;
    match KindOf(p[2])
    case DowntimesOf(g) =>
      var ds := codec.downtimes(fs.files[p]);
      if ds.None? {
        return false, t;
      }
      t := t.(downtimes := t.downtimes[g := ds.value]);
      DowntimeFileRead(codec, fs, t0, p, ds.value, facs, sites, files);
      ok := true;
    case GroupNamed(g) =>
      var group := codec.group(fs.files[p]);
      if group.None? {
        return false, t;
      }
      t := t.(groups := t.groups[g := group.value], groupSite := t.groupSite[g := p[1]]);
      GroupFileRead(codec, fs, t0, p, group.value, facs, sites, files);
      ok := true;
    case _ =>
      OneMoreOther(codec, fs, t, files, p);
      ok := true;
  }

  lemma {:induction false} DowntimeFileRead(codec: Codec, fs: FS, t: Topology, p: Path, ds: seq<Downtime>,
                                            facs: set<Path>, sites: set<Path>, files: set<Path>)
    requires PartRead(codec, fs, t, facs, sites, files) && IsSiteFile(fs, p) && KindOf(p[2]).DowntimesOf?
    requires codec.downtimes(fs.files[p]) == Some(ds)
    ensures PartRead(codec, fs, t.(downtimes := t.downtimes[KindOf(p[2]).group := ds]), facs, sites, files + {p})
  {
    var after := t.(downtimes := t.downtimes[KindOf(p[2]).group := ds]);
    OneMoreDowntimes(codec, fs, t, files, p, ds);
    SamePart(codec, fs, t, after, facs, sites, files);
    OneMoreOther(codec, fs, after, files, p);
  }

  lemma {:induction false} GroupFileRead(codec: Codec, fs: FS, t: Topology, p: Path, group: Group, facs: set<Path>,
                                         sites: set<Path>, files: set<Path>)
    requires PartRead(codec, fs, t, facs, sites, files) && IsSiteFile(fs, p) && KindOf(p[2]).GroupNamed?
    requires codec.group(fs.files[p]) == Some(group)
    ensures var g := KindOf(p[2]).group;
      PartRead(codec, fs, t.(groups := t.groups[g := group], groupSite := t.groupSite[g := p[1]]), facs, sites,
        files + {p})
  {
    var g := KindOf(p[2]).group;
    var after := t.(groups := t.groups[g := group], groupSite := t.groupSite[g := p[1]]);
    OneMoreGroup(codec, fs, t, files, p, group);
    SamePart(codec, fs, t, after, facs, sites, files);
    OneMoreOther(codec, fs, after, files, p);
  }

  method ReadSiteDir(codec: Codec, fs: FS, t0: Topology, d: Path, ghost facs: set<Path>, ghost sites: set<Path>,
                     ghost files: set<Path>)
    returns (ok: bool, t: Topology)
    requires PartRead(codec, fs, t0, facs, sites, files) && IsSiteDir(fs, d)
    ensures ok ==> PartRead(codec, fs, t, facs, sites + {d}, files + FilesBelow(fs, {d}))
    ensures Readable(codec, fs) ==> ok
  {
    t := t0;
    var site := ReadSite(codec, fs, d);
    if site.None? {
      return false, t;
    }
    t := t.(sites := t.sites[d[1] := site.value], siteFacility := t.siteFacility[d[1] := d[0]]);
    OneMoreSite(codec, fs, t0, sites, d, site.value);
    SamePart(codec, fs, t0, t, facs, sites, files);
    ok, t := ReadSiteFiles(codec, fs, t, FilesBelow(fs, {d}), facs, sites + {d}, files);
  }

  method ReadSiteFiles(codec: Codec, fs: FS, t0: Topology, entries: set<Path>, ghost facs: set<Path>,
                       ghost sites: set<Path>, ghost files: set<Path>)
    returns (ok: bool, t: Topology)
    requires PartRead(codec, fs, t0, facs, sites, files) && forall p :: p in entries ==> IsSiteFile(fs, p)
    ensures ok ==> PartRead(codec, fs, t, facs, sites, files + entries)
    ensures Readable(codec, fs) ==> ok
  {
    t := t0;
    var todo := entries;
    ghost var done := files;
    while todo != {}
      invariant todo <= entries && done == files + (entries - todo)
      invariant PartRead(codec, fs, t, facs, sites, done)
      decreases todo
    {
      var p :| p in todo;
      ok, t := ReadSiteFile(codec, fs, t, p, facs, sites, done);
      if !ok {
        return;
      }
      todo := todo - {p};
      done := done + {p};
    }
    assert done == files + entries;
    ok := true;
  }

  method ReadFacilityDir(codec: Codec, fs: FS, t0: Topology, f: string, ghost facs: set<Path>, ghost sites: set<Path>,
                         ghost files: set<Path>)
    returns (ok: bool, t: Topology)
    requires PartRead(codec, fs, t0, facs, sites, files) && IsFacilityDir(fs, [f])
    ensures ok ==> PartRead(codec, fs, t, facs + {[f]}, sites + SitesBelow(fs, {[f]}),
      files + FilesBelow(fs, SitesBelow(fs, {[f]})))
    ensures Readable(codec, fs) ==> ok
  {
    t := t0;
    var facility := ReadFacility(codec, fs, [f]);
    if facility.None? {
      return false, t;
    }
    t := t.(facilities := t.facilities[f := facility.value]);
    SamePart(codec, fs, t0, t, facs, sites, files);
    ok, t := ReadSiteDirs(codec, fs, t, SitesBelow(fs, {[f]}), facs + {[f]}, sites, files);
  }

  method ReadSiteDirs(codec: Codec, fs: FS, t0: Topology, entries: set<Path>, ghost facs: set<Path>,
                      ghost sites: set<Path>, ghost files: set<Path>)
    returns (ok: bool, t: Topology)
    requires PartRead(codec, fs, t0, facs, sites, files) && forall d :: d in entries ==> IsSiteDir(fs, d)
    ensures ok ==> PartRead(codec, fs, t, facs, sites + entries, files + FilesBelow(fs, entries))
    ensures Readable(codec, fs) ==> ok
  {
    t := t0;
    var todo := entries;
    ghost var doneSites, doneFiles := sites, files;
    assert FilesBelow(fs, entries - todo) == {};
    while todo != {}
      invariant todo <= entries
      invariant doneSites == sites + (entries - todo) && doneFiles == files + FilesBelow(fs, entries - todo)
      invariant PartRead(codec, fs, t, facs, doneSites, doneFiles)
      decreases todo
    {
      var d :| d in todo;
      ok, t := ReadSiteDir(codec, fs, t, d, facs, doneSites, doneFiles);
      if !ok {
        return;
      }
      OneMoreEntry(fs, sites, files, entries, todo, d);
      todo := todo - {d};
      doneSites, doneFiles := doneSites + {d}, doneFiles + FilesBelow(fs, {d});
    }
    assert entries - todo == entries;
    ok := true;
  }

  lemma OneMoreEntry(fs: FS, sites: set<Path>, files: set<Path>, entries: set<Path>, todo: set<Path>, d: Path)
    requires d in todo && todo <= entries
    ensures sites + (entries - (todo - {d})) == sites + (entries - todo) + {d}
    ensures files + FilesBelow(fs, entries - (todo - {d})) ==
      files + FilesBelow(fs, entries - todo) + FilesBelow(fs, {d})
  {
    assert entries - (todo - {d}) == (entries - todo) + {d};
    BelowBoth(fs, entries - todo, {d});
  }

  method ReadTree(codec: Codec, fs: FS) returns (r: Option<Topology>)
    ensures r.Some? ==> IsRead(codec, fs, r.value)
    ensures Readable(codec, fs) ==> r.Some?
  {
    var t := Topology(map[], map[], map[], map[], map[], map[]);
    var todo := FacilityDirs(fs);
    ghost var done: set<Path> := {};
    assert SitesBelow(fs, done) == {} && FilesBelow(fs, {}) == {};
    while todo != {}
      invariant todo <= FacilityDirs(fs) && done == FacilityDirs(fs) - todo
      invariant PartRead(codec, fs, t, done, SitesBelow(fs, done), FilesBelow(fs, SitesBelow(fs, done)))
      decreases todo
    {
      var d :| d in todo;
      assert d == [d[0]];
      var ok: bool;
      ok, t := ReadFacilityDir(codec, fs, t, d[0], done, SitesBelow(fs, done), FilesBelow(fs, SitesBelow(fs, done)));
      if !ok {
        return None;
      }
      todo := todo - {d};
      BelowBoth(fs, done, {d});
      BelowBoth(fs, SitesBelow(fs, done), SitesBelow(fs, {d}));
      done := done + {d};
    }
    assert done == FacilityDirs(fs);
    return Some(t);
  }
}
