/** Which entity file a path is, if it is one (internal/githistory/classify.go). */
module Classify {
  import opened Kinds
  import opened Wrappers
  import opened Strings

  datatype Classified = Classified(kind: Kind, name: string, site: string, facility: string)

  function ClassifyPath(path: string): Option<Classified> {
    var parts := Split(path, '/');
    if |parts| == 3 && parts[0] == "topology" && parts[2] == "FACILITY.yaml" then
      Some(Classified(Facility, parts[1], "", ""))
    else if |parts| == 4 && parts[0] == "topology" && parts[3] == "SITE.yaml" then
      Some(Classified(Site, parts[2], "", parts[1]))
    else if |parts| == 4 && parts[0] == "topology" && HasSuffix(parts[3], ".yaml")
      && !HasSuffix(parts[3], "_downtime.yaml") then
      Some(Classified(ResourceGroup, TrimSuffix(parts[3], ".yaml"), parts[2], ""))
    else if |parts| == 2 && parts[0] == "projects" && HasSuffix(parts[1], ".yaml") && !HasPrefix(parts[1], "_") then
      Some(Classified(Project, TrimSuffix(parts[1], ".yaml"), "", ""))
    else None
  }

  // The name a path spells, when it spells one.
  function Spelled(path: string): Option<string> {
    match ClassifyPath(path)
    case Some(c) => Some(c.name)
    case None => None
  }

  // ---- which paths are whose ----

  predicate Part(s: string) {
    '/' !in s
  }

  function FacilityPath(facility: string): string {
    "topology/" + facility + "/FACILITY.yaml"
  }

  function SitePath(facility: string, site: string): string {
    "topology/" + facility + "/" + site + "/SITE.yaml"
  }

  function GroupPath(facility: string, site: string, group: string): string {
    "topology/" + facility + "/" + site + "/" + group + ".yaml"
  }

  function ProjectPath(project: string): string {
    "projects/" + project + ".yaml"
  }

  // The path is the file of that entity.  A resource group's facility is not part of what it is.
  ghost predicate FileOf(path: string, c: Classified) {
    match c.kind
    case Facility => Part(c.name) && c.site == "" && c.facility == "" && path == FacilityPath(c.name)
    case Site => Part(c.name) && Part(c.facility) && c.site == "" && path == SitePath(c.facility, c.name)
    case ResourceGroup =>
      && Part(c.name) && Part(c.site) && c.facility == "" && c.name != "SITE" && !HasSuffix(c.name, "_downtime")
      && InSomeFacility(path, c)
    case Project =>
      Part(c.name) && !HasPrefix(c.name, "_") && c.site == "" && c.facility == "" && path == ProjectPath(c.name)
    case _ => false
  }

  ghost predicate InSomeFacility(path: string, c: Classified) {
    exists f :: Part(f) && path == GroupPath(f, c.site, c.name)
  }

  lemma Joined(a: string, b: string, c: string, d: string)
    ensures Join([a, b], '/') == a + "/" + b
    ensures Join([a, b, c], '/') == a + "/" + b + "/" + c
    ensures Join([a, b, c, d], '/') == a + "/" + b + "/" + c + "/" + d
  {
    assert [a, b][1..] == [b] && [b, c][1..] == [c] && [c, d][1..] == [d];
    assert [a, b, c][1..] == [b, c] && [b, c, d][1..] == [c, d] && [a, b, c, d][1..] == [b, c, d];
    assert Join([b, c], '/') == b + "/" + c && Join([c, d], '/') == c + "/" + d;
    assert a + "/" + (b + "/" + c) == a + "/" + b + "/" + c;
    assert b + "/" + (c + "/" + d) == b + "/" + c + "/" + d;
    assert a + "/" + (b + "/" + c + "/" + d) == a + "/" + b + "/" + c + "/" + d;
  }

  // What ClassifyPath makes of a path depends on its parts; these are the parts of each shape.
  lemma {:induction false} SplitTwo(path: string, a: string, b: string)
    ensures Split(path, '/') == [a, b] <==> Part(a) && Part(b) && path == a + "/" + b
  {
    Joined(a, b, "", "");
    SplitIs(path, '/', [a, b]);
    assert Unsplit([a, b], '/') <==> '/' !in [a, b][0] && '/' !in [a, b][1];
  }

  lemma {:induction false} SplitThree(path: string, a: string, b: string, c: string)
    ensures Split(path, '/') == [a, b, c] <==> Part(a) && Part(b) && Part(c) && path == a + "/" + b + "/" + c
  {
    Joined(a, b, c, "");
    SplitIs(path, '/', [a, b, c]);
    assert Unsplit([a, b, c], '/') <==> '/' !in [a, b, c][0] && '/' !in [a, b, c][1] && '/' !in [a, b, c][2];
  }

  lemma {:induction false} SplitFour(path: string, a: string, b: string, c: string, d: string)
    ensures Split(path, '/') == [a, b, c, d] <==>
      Part(a) && Part(b) && Part(c) && Part(d) && path == a + "/" + b + "/" + c + "/" + d
  {
    Joined(a, b, c, d);
    SplitIs(path, '/', [a, b, c, d]);
    assert Unsplit([a, b, c, d], '/') <==>
      '/' !in [a, b, c, d][0] && '/' !in [a, b, c, d][1] && '/' !in [a, b, c, d][2] && '/' !in [a, b, c, d][3];
  }

  // Names in a file name.
  lemma {:induction false} Yaml(file: string, name: string)
    ensures HasSuffix(file, ".yaml") && TrimSuffix(file, ".yaml") == name <==> file == name + ".yaml"
    ensures Part(name + ".yaml") <==> Part(name)
    ensures HasPrefix(name + ".yaml", "_") <==> HasPrefix(name, "_")
    ensures HasSuffix(name + ".yaml", "_downtime.yaml") <==> HasSuffix(name, "_downtime")
    ensures name + ".yaml" == "SITE.yaml" <==> name == "SITE"
  {
    SuffixAdded(name, ".yaml");
    SuffixesCancel(name, "_downtime", ".yaml");
    assert "_downtime" + ".yaml" == "_downtime.yaml" && "SITE" + ".yaml" == "SITE.yaml";
    assert name + ".yaml" == "SITE" + ".yaml" ==> name == (name + ".yaml")[..|name|] == ("SITE" + ".yaml")[..4];
    assert forall i :: 0 <= i < |name| ==> (name + ".yaml")[i] == name[i];
    if name == "" {
      assert (name + ".yaml")[..1] == ".";
    } else {
      assert (name + ".yaml")[..1] == name[..1];
    }
  }

  lemma {:induction false} FacilityFiles(path: string, c: Classified)
    requires c.kind == Facility
    ensures ClassifyPath(path) == Some(c) <==> FileOf(path, c)
  {
    var parts := Split(path, '/');
    SplitThree(path, "topology", c.name, "FACILITY.yaml");
    assert "topology" + "/" + c.name + "/" + "FACILITY.yaml" == FacilityPath(c.name);
    if ClassifyPath(path) == Some(c) {
      assert parts == ["topology", c.name, "FACILITY.yaml"];
    }
  }

  lemma {:induction false} SiteFiles(path: string, c: Classified)
    requires c.kind == Site
    ensures ClassifyPath(path) == Some(c) <==> FileOf(path, c)
  {
    var parts := Split(path, '/');
    SplitFour(path, "topology", c.facility, c.name, "SITE.yaml");
    assert "topology" + "/" + c.facility + "/" + c.name + "/" + "SITE.yaml" == SitePath(c.facility, c.name);
    if ClassifyPath(path) == Some(c) {
      assert parts == ["topology", c.facility, c.name, "SITE.yaml"];
    }
  }

  lemma {:induction false} ProjectFiles(path: string, c: Classified)
    requires c.kind == Project
    ensures ClassifyPath(path) == Some(c) <==> FileOf(path, c)
  {
    hide Split, HasSuffix, HasPrefix, TrimSuffix;
    var parts := Split(path, '/');
    SplitTwo(path, "projects", c.name + ".yaml");
    Yaml(c.name + ".yaml", c.name);
    assert "projects" + "/" + (c.name + ".yaml") == ProjectPath(c.name);
    if ClassifyPath(path) == Some(c) {
      Yaml(parts[1], c.name);
      assert parts == ["projects", c.name + ".yaml"];
    }
  }

  lemma {:induction false} GroupFiles(path: string, c: Classified)
    requires c.kind == ResourceGroup
    ensures ClassifyPath(path) == Some(c) <==> FileOf(path, c)
  {
    var parts := Split(path, '/');
    Yaml(c.name + ".yaml", c.name);
    if ClassifyPath(path) == Some(c) {
      Yaml(parts[3], c.name);
      assert parts == ["topology", parts[1], c.site, c.name + ".yaml"];
      SplitFour(path, "topology", parts[1], c.site, c.name + ".yaml");
      SameGroupPath(parts[1], c.site, c.name);
      assert InSomeFacility(path, c);
    }
    if FileOf(path, c) {
      var f :| Part(f) && path == GroupPath(f, c.site, c.name);
      SameGroupPath(f, c.site, c.name);
      SplitFour(path, "topology", f, c.site, c.name + ".yaml");
    }
  }

  lemma SameGroupPath(f: string, s: string, g: string)
    ensures "topology" + "/" + f + "/" + s + "/" + (g + ".yaml") == GroupPath(f, s, g)
  {}

  /** A path is classified exactly when it has one of the four shapes of an entity's file, and then as the
      entity whose file it is. */
  lemma {:induction false} ClassifiedIffFileOf(path: string, c: Classified)
    ensures ClassifyPath(path) == Some(c) <==> FileOf(path, c)
  {
    match c.kind
    case Facility => FacilityFiles(path, c);
    case Site => SiteFiles(path, c);
    case ResourceGroup => GroupFiles(path, c);
    case Project => ProjectFiles(path, c);
    case _ =>
  }

  /** Two paths are classified alike exactly when they are one path, or the files of a resource group in
      sites of one name in two facilities: that a group moved with its site is not seen. */
  lemma {:induction false} SameEntityIffSameFile(p: string, q: string, c: Classified)
    requires ClassifyPath(p) == Some(c)
    ensures ClassifyPath(q) == Some(c) <==>
      p == q || (c.kind == ResourceGroup && InSomeFacility(p, c) && InSomeFacility(q, c))
  {
    ClassifiedIffFileOf(p, c);
    ClassifiedIffFileOf(q, c);
  }

  // The missing side of an addition or deletion is the file of nothing.
  lemma EmptyPathIsNoEntity()
    ensures Spelled("") == None
  {
    assert Split("", '/') == [""];
  }
}
