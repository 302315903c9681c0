/** Reading back a tree that was written: when it is the same tree. */
module TreeRoundTrip {
  import opened Wrappers
  import opened Strings
  import opened Persist
  import opened TreeFiles

  // No group has a name whose file reads as something else.
  predicate NamesReadBack(t: Topology) {
    forall g | g in t.groups :: g != "SITE" && !HasSuffix(g, "_downtime")
  }

  // Downtimes are listed only for groups of the tree, and only when there are some.
  predicate DowntimesListed(t: Topology) {
    forall g | g in t.downtimes :: g in t.groups && t.downtimes[g] != []
  }

  // ---- file names ----

  lemma KindOfGroupFile(g: string)
    ensures g == "SITE" ==> KindOf(g + ".yaml") == SiteItself
    ensures g != "SITE" && HasSuffix(g, "_downtime") ==> KindOf(g + ".yaml").DowntimesOf?
    ensures g != "SITE" && !HasSuffix(g, "_downtime") ==> KindOf(g + ".yaml") == GroupNamed(g)
  {
    SuffixAdded(g, ".yaml");
    assert "_downtime" + ".yaml" == "_downtime.yaml" && "SITE" + ".yaml" == "SITE.yaml";
    SuffixesCancel(g, "_downtime", ".yaml");
    assert g + ".yaml" == "SITE" + ".yaml" ==> g == (g + ".yaml")[..|g|] == ("SITE" + ".yaml")[..4];
  }

  lemma KindOfDowntimeFile(g: string)
    ensures KindOf(g + "_downtime.yaml") == DowntimesOf(g)
  {
    var file := g + "_downtime.yaml";
    SuffixAdded(g, "_downtime.yaml");
    assert file == g + "_downtime" + ".yaml";
    SuffixAdded(g + "_downtime", ".yaml");
    assert |file| > |"SITE.yaml"|;
  }

  lemma GroupNamedIs(file: string, g: string)
    requires KindOf(file) == GroupNamed(g)
    ensures file == g + ".yaml"
  {}

  // ---- what was written, by path ----

  // What the path of a written file tells.
  lemma {:induction false} SitePathTells(t: Topology, p: Path, c: Content)
    requires Placed(t) && WroteSite(t, p, c)
    ensures |p| == 3 && KindOf(p[2]) == SiteItself && p[1] in t.sites && c == SiteFile(t.sites[p[1]])
  {
    KindOfGroupFile("SITE");
    assert "SITE" + ".yaml" == "SITE.yaml";
  }

  lemma {:induction false} GroupPathTells(t: Topology, p: Path, c: Content)
    requires Placed(t) && NamesReadBack(t) && WroteGroup(t, p, c)
    ensures |p| == 3 && KindOf(p[2]).GroupNamed?
    ensures var g := KindOf(p[2]).group; g in t.groups && p == GroupPath(t, g) && c == GroupFile(t.groups[g])
  {
    var g :| g in t.groups && p == GroupPath(t, g) && c == GroupFile(t.groups[g]);
    KindOfGroupFile(g);
  }

  lemma {:induction false} DowntimePathTells(t: Topology, p: Path, c: Content)
    requires Placed(t) && WroteDowntimes(t, p, c)
    ensures |p| == 3 && KindOf(p[2]).DowntimesOf?
    ensures var g := KindOf(p[2]).group;
      HasDowntimes(t, g) && p == DowntimePath(t, g) && c == DowntimeFile(t.downtimes[g])
  {
    var g :| HasDowntimes(t, g) && p == DowntimePath(t, g) && c == DowntimeFile(t.downtimes[g]);
    KindOfDowntimeFile(g);
  }

  // A file below a site is what its name says.
  lemma {:induction false} FileIsAsNamed(t: Topology, p: Path, c: Content)
    requires Placed(t) && NamesReadBack(t) && Wrote(t, p, c) && |p| == 3
    ensures match KindOf(p[2])
            case SiteItself => p[1] in t.sites && c == SiteFile(t.sites[p[1]])
            case GroupNamed(g) => g in t.groups && p == GroupPath(t, g) && c == GroupFile(t.groups[g])
            case DowntimesOf(g) => HasDowntimes(t, g) && p == DowntimePath(t, g) && c == DowntimeFile(t.downtimes[g])
            case Other => false
  {
    if WroteSite(t, p, c) {
      SitePathTells(t, p, c);
    } else if WroteGroup(t, p, c) {
      GroupPathTells(t, p, c);
    } else if WroteDowntimes(t, p, c) {
      DowntimePathTells(t, p, c);
    }
  }

  lemma {:induction false} SiteFileIs(t: Topology, fs: FS, s: string)
    requires Placed(t) && NamesReadBack(t) && IsWritten(t, fs) && s in t.sites
    ensures SitePath(t, s) in fs.files && fs.files[SitePath(t, s)] == SiteFile(t.sites[s])
  {
    var p := SitePath(t, s);
    FileIsAsNamed(t, p, fs.files[p]);
    KindOfGroupFile("SITE");
    assert "SITE" + ".yaml" == "SITE.yaml";
  }

  lemma {:induction false} FacilityFileIs(t: Topology, fs: FS, f: string)
    requires Placed(t) && IsWritten(t, fs) && f in t.facilities
    ensures [f, "FACILITY.yaml"] in fs.files && fs.files[[f, "FACILITY.yaml"]] == FacilityFile(t.facilities[f])
  {
    var p := [f, "FACILITY.yaml"];
    var c := fs.files[p];
    assert Wrote(t, p, c);
    assert |p| == 2 && !WroteSite(t, p, c) && !WroteGroup(t, p, c) && !WroteDowntimes(t, p, c);
    var g :| g in t.facilities && p == [g, "FACILITY.yaml"] && c == FacilityFile(t.facilities[g]);
    assert g == p[0] == f;
  }

  lemma {:induction false} SiteDirIs(t: Topology, fs: FS, d: Path)
    requires Placed(t) && IsWritten(t, fs)
    ensures IsSiteDir(fs, d) <==> exists s :: s in t.sites && d == SiteDir(t, s)
  {
    if s :| s in t.sites && d == SiteDir(t, s) {
      assert t.siteFacility[s] in t.facilities && [t.siteFacility[s]] in fs.dirs;
    }
  }

  lemma {:induction false} GroupFileThere(t: Topology, fs: FS, g: string)
    requires Placed(t) && IsWritten(t, fs) && g in t.groups
    ensures IsSiteFile(fs, GroupPath(t, g))
    ensures HasDowntimes(t, g) ==> IsSiteFile(fs, DowntimePath(t, g))
  {
    var s := t.groupSite[g];
    SiteDirIs(t, fs, SiteDir(t, s));
    assert GroupPath(t, g)[..2] == SiteDir(t, s) && DowntimePath(t, g)[..2] == SiteDir(t, s);
  }

  // The directory of a group's files.
  function GroupDir(t: Topology, g: string): Path
    requires Placed(t) && g in t.groups
  {
    [t.siteFacility[t.groupSite[g]], t.groupSite[g]]
  }

  // Downtimes have a file next to their group's when there are some.
  ghost predicate DowntimesInPlace(t: Topology, fs: FS, g: string)
    requires Placed(t) && g in t.groups
  {
    var p := GroupDir(t, g) + [g + "_downtime.yaml"];
    if g in t.downtimes && |t.downtimes[g]| > 0 then p in fs.files && fs.files[p] == DowntimeFile(t.downtimes[g])
    else p !in fs.files
  }

  /** Every entity is in a file of its own: a facility in FACILITY.yaml of the directory that has its name, a
      site in SITE.yaml of its directory below the facility's, a group under its name in the site's
      directory, and its downtimes beside it, exactly when it has some. */
  lemma {:induction false} FilesAreInTheirPlaces(t: Topology, fs: FS)
    requires Placed(t) && NamesReadBack(t) && IsWritten(t, fs)
    ensures forall f :: f in t.facilities ==>
      [f, "FACILITY.yaml"] in fs.files && fs.files[[f, "FACILITY.yaml"]] == FacilityFile(t.facilities[f])
    ensures forall s :: s in t.sites ==>
      var p := [t.siteFacility[s], s, "SITE.yaml"];
      p in fs.files && fs.files[p] == SiteFile(t.sites[s])
    ensures forall g :: g in t.groups ==>
      var p := GroupDir(t, g) + [g + ".yaml"];
      p in fs.files && fs.files[p] == GroupFile(t.groups[g]) && DowntimesInPlace(t, fs, g)
  {
    forall f | f in t.facilities
      ensures [f, "FACILITY.yaml"] in fs.files && fs.files[[f, "FACILITY.yaml"]] == FacilityFile(t.facilities[f])
    {
      FacilityFileIs(t, fs, f);
    }
    forall s | s in t.sites
      ensures var p := [t.siteFacility[s], s, "SITE.yaml"]; p in fs.files && fs.files[p] == SiteFile(t.sites[s])
    {
      SiteFileIs(t, fs, s);
    }
    forall g | g in t.groups
      ensures var p := GroupDir(t, g) + [g + ".yaml"];
        p in fs.files && fs.files[p] == GroupFile(t.groups[g]) && DowntimesInPlace(t, fs, g)
    {
      GroupFilesInPlace(t, fs, g);
    }
  }

  lemma {:induction false} GroupFilesInPlace(t: Topology, fs: FS, g: string)
    requires Placed(t) && NamesReadBack(t) && IsWritten(t, fs) && g in t.groups
    ensures var p := GroupDir(t, g) + [g + ".yaml"]; p in fs.files && fs.files[p] == GroupFile(t.groups[g])
    ensures DowntimesInPlace(t, fs, g)
  {
    var p, q := GroupDir(t, g) + [g + ".yaml"], GroupDir(t, g) + [g + "_downtime.yaml"];
    assert p == GroupPath(t, g) && q == DowntimePath(t, g);
    KindOfGroupFile(g);
    KindOfDowntimeFile(g);
    FileIsAsNamed(t, p, fs.files[p]);
    if q in fs.files {
      FileIsAsNamed(t, q, fs.files[q]);
    }
  }

  // ---- what is read back ----

  lemma {:induction false} FacilityBack(codec: Codec, t: Topology, fs: FS, f: string)
    requires Placed(t) && IsWritten(t, fs)
    ensures IsFacilityDir(fs, [f]) <==> f in t.facilities
    ensures f in t.facilities ==> ReadFacility(codec, fs, [f]) == codec.facility(FacilityFile(t.facilities[f]))
  {
    if IsFacilityDir(fs, [f]) {
      assert [f] in fs.dirs;
    }
    if f in t.facilities {
      FacilityFileIs(t, fs, f);
      assert [f] + ["FACILITY.yaml"] == [f, "FACILITY.yaml"];
    }
  }

  lemma {:induction false} FacilitiesBack(codec: Codec, t: Topology, fs: FS, back: Topology)
    requires Placed(t) && IsWritten(t, fs) && FacilitiesRead(codec, fs, back, FacilityDirs(fs))
    ensures back.facilities.Keys == t.facilities.Keys
    ensures forall f :: f in t.facilities ==> codec.facility(FacilityFile(t.facilities[f])) == Some(back.facilities[f])
  {
    forall f ensures f in back.facilities <==> f in t.facilities {
      FacilityBack(codec, t, fs, f);
      assert [f][0] == f;
      assert IsFacilityDir(fs, [f]) <==> [f] in FacilityDirs(fs);
    }
    forall f | f in t.facilities ensures codec.facility(FacilityFile(t.facilities[f])) == Some(back.facilities[f]) {
      FacilityBack(codec, t, fs, f);
    }
  }

  // A site that was read is one that was written, in the same facility.
  ghost predicate SiteMatches(codec: Codec, t: Topology, back: Topology, s: string)
    requires Placed(t) && s in back.sites && s in back.siteFacility
  {
    s in t.sites && codec.site(SiteFile(t.sites[s])) == Some(back.sites[s]) && back.siteFacility[s] == t.siteFacility[s]
  }

  lemma {:induction false} SiteBack(codec: Codec, t: Topology, fs: FS, back: Topology, s: string, d: Path)
    requires Placed(t) && NamesReadBack(t) && IsWritten(t, fs) && SiteFrom(codec, fs, back, s, d)
    ensures SiteMatches(codec, t, back, s)
  {
    SiteDirIs(t, fs, d);
    var z :| z in t.sites && d == SiteDir(t, z);
    assert z == s;
    SiteFileIs(t, fs, s);
    assert d + ["SITE.yaml"] == SitePath(t, s);
  }

  lemma {:induction false} AllSiteDirsThere(t: Topology, fs: FS)
    requires Placed(t) && IsWritten(t, fs)
    ensures forall s :: s in t.sites ==> SiteDir(t, s) in SitesBelow(fs, FacilityDirs(fs))
  {
    forall s | s in t.sites ensures SiteDir(t, s) in SitesBelow(fs, FacilityDirs(fs)) {
      SiteDirIs(t, fs, SiteDir(t, s));
      assert [t.siteFacility[s]] in FacilityDirs(fs);
    }
  }

  lemma {:induction false} SiteMatchesAll(codec: Codec, t: Topology, fs: FS, back: Topology)
    requires Placed(t) && NamesReadBack(t) && IsWritten(t, fs)
    ensures forall s, d :: SiteFrom(codec, fs, back, s, d) ==> SiteMatches(codec, t, back, s)
  {
    forall s, d | SiteFrom(codec, fs, back, s, d) ensures SiteMatches(codec, t, back, s) {
      SiteBack(codec, t, fs, back, s, d);
    }
  }

  lemma {:induction false} SitesBack(codec: Codec, t: Topology, fs: FS, back: Topology, sites: set<Path>)
    requires Placed(t) && SitesRead(codec, fs, back, sites)
    requires forall s :: s in t.sites ==> SiteDir(t, s) in sites
    requires forall s, d :: SiteFrom(codec, fs, back, s, d) ==> SiteMatches(codec, t, back, s)
    ensures back.sites.Keys == t.sites.Keys && back.siteFacility == t.siteFacility
    ensures forall s :: s in t.sites ==> codec.site(SiteFile(t.sites[s])) == Some(back.sites[s])
  {
    forall s | s in t.sites ensures s in back.sites {
      assert SiteDir(t, s)[1] == s;
    }
    forall s | s in back.sites ensures SiteMatches(codec, t, back, s) {
      var d :| SiteFrom(codec, fs, back, s, d);
    }
    SameMaps(back.siteFacility, t.siteFacility);
  }

  lemma SameMaps<V>(a: map<string, V>, b: map<string, V>)
    requires (forall k :: k in b ==> k in a) && forall k :: k in a ==> k in b && a[k] == b[k]
    ensures a == b
  {}

  function AllFiles(fs: FS): set<Path> {
    FilesBelow(fs, SitesBelow(fs, FacilityDirs(fs)))
  }

  lemma {:induction false} FileThere(t: Topology, fs: FS, p: Path)
    requires Placed(t) && IsWritten(t, fs) && IsSiteFile(fs, p)
    ensures p in AllFiles(fs)
  {
    assert [p[..2][0]] in FacilityDirs(fs);
  }

  lemma {:induction false} GroupThere(t: Topology, fs: FS, back: Topology, codec: Codec, g: string)
    requires Placed(t) && NamesReadBack(t) && IsWritten(t, fs) && g in t.groups
      && GroupsRead(codec, fs, back, AllFiles(fs))
    ensures g in back.groups
  {
    GroupFileThere(t, fs, g);
    KindOfGroupFile(g);
    FileThere(t, fs, GroupPath(t, g));
  }

  // The same for a group.
  ghost predicate GroupMatches(codec: Codec, t: Topology, back: Topology, g: string)
    requires Placed(t) && g in back.groups && g in back.groupSite
  {
    g in t.groups && codec.group(GroupFile(t.groups[g])) == Some(back.groups[g]) && back.groupSite[g] == t.groupSite[g]
  }

  lemma {:induction false} GroupBack(codec: Codec, t: Topology, fs: FS, back: Topology, g: string, p: Path)
    requires Placed(t) && NamesReadBack(t) && IsWritten(t, fs) && GroupFrom(codec, fs, back, g, p)
    ensures GroupMatches(codec, t, back, g)
  {
    FileIsAsNamed(t, p, fs.files[p]);
  }

  lemma {:induction false} GroupsBack(codec: Codec, t: Topology, fs: FS, back: Topology)
    requires Placed(t) && NamesReadBack(t) && IsWritten(t, fs) && GroupsRead(codec, fs, back, AllFiles(fs))
    ensures back.groups.Keys == t.groups.Keys && back.groupSite == t.groupSite
    ensures forall g :: g in t.groups ==> codec.group(GroupFile(t.groups[g])) == Some(back.groups[g])
  {
    forall g | g in t.groups ensures g in back.groups {
      GroupThere(t, fs, back, codec, g);
    }
    forall g | g in back.groups ensures GroupMatches(codec, t, back, g) {
      var p :| GroupFrom(codec, fs, back, g, p);
      GroupBack(codec, t, fs, back, g, p);
    }
    SameMaps(back.groupSite, t.groupSite);
  }

  lemma {:induction false} DowntimesThere(t: Topology, fs: FS, back: Topology, codec: Codec, g: string)
    requires Placed(t) && IsWritten(t, fs) && HasDowntimes(t, g) && DowntimesRead(codec, fs, back, AllFiles(fs))
    ensures g in back.downtimes
  {
    GroupFileThere(t, fs, g);
    KindOfDowntimeFile(g);
    FileThere(t, fs, DowntimePath(t, g));
  }

  lemma {:induction false} DowntimesOfBack(codec: Codec, t: Topology, fs: FS, back: Topology, g: string, p: Path)
    requires Placed(t) && NamesReadBack(t) && IsWritten(t, fs) && DowntimesFrom(codec, fs, back, g, p)
    ensures HasDowntimes(t, g) && codec.downtimes(DowntimeFile(t.downtimes[g])) == Some(back.downtimes[g])
  {
    FileIsAsNamed(t, p, fs.files[p]);
  }

  lemma {:induction false} DowntimesBack(codec: Codec, t: Topology, fs: FS, back: Topology)
    requires Placed(t) && NamesReadBack(t) && IsWritten(t, fs) && DowntimesRead(codec, fs, back, AllFiles(fs))
    ensures forall g :: g in back.downtimes <==> HasDowntimes(t, g)
    ensures forall g :: HasDowntimes(t, g) ==> codec.downtimes(DowntimeFile(t.downtimes[g])) == Some(back.downtimes[g])
  {
    forall g | HasDowntimes(t, g) ensures g in back.downtimes {
      DowntimesThere(t, fs, back, codec, g);
    }
    forall g | g in back.downtimes
      ensures HasDowntimes(t, g) && codec.downtimes(DowntimeFile(t.downtimes[g])) == Some(back.downtimes[g])
    {
      var p :| DowntimesFrom(codec, fs, back, g, p);
      DowntimesOfBack(codec, t, fs, back, g, p);
    }
  }

  // A group with a reserved name is not read back as a group.
  lemma {:induction false} ReservedNameIsLost(codec: Codec, fs: FS, back: Topology, g: string, p: Path)
    requires g == "SITE" || HasSuffix(g, "_downtime")
    ensures !GroupFrom(codec, fs, back, g, p)
  {
    if GroupFrom(codec, fs, back, g, p) {
      GroupNamedIs(p[2], g);
    }
    KindOfGroupFile(g);
  }

  lemma {:induction false} ReservedNamesAreLost(codec: Codec, t: Topology, fs: FS, back: Topology)
    requires GroupsRead(codec, fs, back, AllFiles(fs)) && !NamesReadBack(t)
    ensures back.groups.Keys != t.groups.Keys
  {
    var g :| g in t.groups && (g == "SITE" || HasSuffix(g, "_downtime"));
    forall p ensures !GroupFrom(codec, fs, back, g, p) {
      ReservedNameIsLost(codec, fs, back, g, p);
    }
    assert g !in back.groups;
  }

  /** What is read back from a tree that was written is the tree itself exactly when no group is called
      SITE or has a name ending in _downtime, downtimes are listed only for its groups and only when
      there are some, and the encoding gives back the tree's own values. */
  lemma {:induction false} ReadInvertsWrite(codec: Codec, t: Topology, fs: FS, back: Topology)
    requires Placed(t) && IsWritten(t, fs) && IsRead(codec, fs, back)
    ensures back == t <==> NamesReadBack(t) && DowntimesListed(t) && Faithful(codec, t)
  {
    if NamesReadBack(t) {
      FacilitiesBack(codec, t, fs, back);
      AllSiteDirsThere(t, fs);
      SiteMatchesAll(codec, t, fs, back);
      SitesBack(codec, t, fs, back, SitesBelow(fs, FacilityDirs(fs)));
      GroupsBack(codec, t, fs, back);
      DowntimesBack(codec, t, fs, back);
      SameValues(codec, t, back);
    } else {
      ReservedNamesAreLost(codec, t, fs, back);
    }
  }

  // What was read is what the codec makes of each value.
  ghost predicate Decoded(codec: Codec, t: Topology, back: Topology) {
    && back.facilities.Keys == t.facilities.Keys
    && back.sites.Keys == t.sites.Keys && back.siteFacility == t.siteFacility
    && back.groups.Keys == t.groups.Keys && back.groupSite == t.groupSite
    && (forall g :: g in back.downtimes <==> HasDowntimes(t, g))
    && (forall f :: f in t.facilities ==> codec.facility(FacilityFile(t.facilities[f])) == Some(back.facilities[f]))
    && (forall s :: s in t.sites ==> codec.site(SiteFile(t.sites[s])) == Some(back.sites[s]))
    && (forall g :: g in t.groups ==> codec.group(GroupFile(t.groups[g])) == Some(back.groups[g]))
    && (forall g :: HasDowntimes(t, g) ==> codec.downtimes(DowntimeFile(t.downtimes[g])) == Some(back.downtimes[g]))
  }

  lemma {:induction false} SameValues(codec: Codec, t: Topology, back: Topology)
    requires Decoded(codec, t, back)
    ensures back == t <==> DowntimesListed(t) && Faithful(codec, t)
  {
    if DowntimesListed(t) && Faithful(codec, t) {
      SameMaps(back.facilities, t.facilities);
      SameMaps(back.sites, t.sites);
      SameMaps(back.groups, t.groups);
      SameMaps(back.downtimes, t.downtimes);
    }
  }

  /** And a written tree can be read exactly when each of its values can be decoded. */
  lemma {:induction false} WrittenIsReadable(codec: Codec, t: Topology, fs: FS)
    requires Placed(t) && IsWritten(t, fs) && NamesReadBack(t)
    ensures Readable(codec, fs) <==> Decodable(codec, t)
  {
    if Decodable(codec, t) {
      DecodableIsReadable(codec, t, fs);
    }
    if Readable(codec, fs) {
      ReadableIsDecodable(codec, t, fs);
    }
  }

  lemma {:induction false} SiteReads(codec: Codec, t: Topology, fs: FS, s: string)
    requires Placed(t) && IsWritten(t, fs) && NamesReadBack(t) && s in t.sites
    ensures IsSiteDir(fs, SiteDir(t, s)) && ReadSite(codec, fs, SiteDir(t, s)) == codec.site(SiteFile(t.sites[s]))
  {
    SiteDirIs(t, fs, SiteDir(t, s));
    SiteFileIs(t, fs, s);
    assert SiteDir(t, s) + ["SITE.yaml"] == SitePath(t, s);
  }

  lemma {:induction false} DecodableIsReadable(codec: Codec, t: Topology, fs: FS)
    requires Placed(t) && IsWritten(t, fs) && NamesReadBack(t) && Decodable(codec, t)
    ensures Readable(codec, fs)
  {
    forall d | IsFacilityDir(fs, d) ensures ReadFacility(codec, fs, d).Some? {
      assert d == [d[0]];
      FacilityBack(codec, t, fs, d[0]);
    }
    forall d | IsSiteDir(fs, d) ensures ReadSite(codec, fs, d).Some? {
      SiteDirIs(t, fs, d);
      var s :| s in t.sites && d == SiteDir(t, s);
      SiteReads(codec, t, fs, s);
    }
    forall p | IsSiteFile(fs, p) && KindOf(p[2]).GroupNamed? ensures codec.group(fs.files[p]).Some? {
      FileIsAsNamed(t, p, fs.files[p]);
    }
    forall p | IsSiteFile(fs, p) && KindOf(p[2]).DowntimesOf? ensures codec.downtimes(fs.files[p]).Some? {
      FileIsAsNamed(t, p, fs.files[p]);
    }
  }

  lemma {:induction false} ReadableIsDecodable(codec: Codec, t: Topology, fs: FS)
    requires Placed(t) && IsWritten(t, fs) && NamesReadBack(t) && Readable(codec, fs)
    ensures Decodable(codec, t)
  {
    forall f | f in t.facilities ensures codec.facility(FacilityFile(t.facilities[f])).Some? {
      FacilityBack(codec, t, fs, f);
    }
    forall s | s in t.sites ensures codec.site(SiteFile(t.sites[s])).Some? {
      SiteReads(codec, t, fs, s);
    }
    forall g | g in t.groups ensures codec.group(GroupFile(t.groups[g])).Some? {
      GroupFileThere(t, fs, g);
      KindOfGroupFile(g);
      FileIsAsNamed(t, GroupPath(t, g), fs.files[GroupPath(t, g)]);
    }
    forall g | HasDowntimes(t, g) ensures codec.downtimes(DowntimeFile(t.downtimes[g])).Some? {
      GroupFileThere(t, fs, g);
      KindOfDowntimeFile(g);
      FileIsAsNamed(t, DowntimePath(t, g), fs.files[DowntimePath(t, g)]);
    }
  }
}
