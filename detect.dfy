/** `_detect_project_info`, given the set of file names present in the project
    root instead of probing the file system. */
module Detection {
  import opened Records

  /** One row of the marker table: a file whose presence names a technology. */
  datatype Marker = Marker(file: string, tech: string, description: string)

  /** The marker table, in the order the source checks it. */
  const Markers: seq<Marker> := [
    Marker("package.json", "node", "JavaScript/Node.js project"),
    Marker("requirements.txt", "python", "Python project"),
    Marker("Cargo.toml", "rust", "Rust project"),
    Marker("go.mod", "go", "Go project"),
    Marker("pom.xml", "java", "Java/Maven project"),
    Marker("build.gradle", "java", "Java/Gradle project"),
    Marker("composer.json", "php", "PHP project"),
    Marker("Gemfile", "ruby", "Ruby project"),
    Marker("Dockerfile", "docker", "Containerized project"),
    Marker("docker-compose.yml", "docker", "Docker Compose project"),
    Marker(".git", "git", "Git repository")
  ]

  const UnknownType := "unknown"

  datatype Detected = Detected(name: string, projectType: string, description: string, technologies: seq<string>)

  /** `Path(root).name`: the last path segment of a resolved root. */
  function PathName(root: string): (name: string)
    ensures |name| <= |root| && name == root[|root| - |name|..]
    ensures forall i :: 0 <= i < |name| ==> name[i] != '/'
    ensures |name| < |root| ==> root[|root| - |name| - 1] == '/'
  {
    if root == [] || root[|root| - 1] == '/' then []
    else PathName(root[..|root| - 1]) + [root[|root| - 1]]
  }

  /** The technologies of the present marker files, in table order (with repeats). */
  function PresentTechnologies(present: set<string>, markers: seq<Marker>): (techs: seq<string>) {
    if markers == [] then []
    else
      var m := markers[|markers| - 1];
      PresentTechnologies(present, markers[..|markers| - 1]) + (if m.file in present then [m.tech] else [])
  }

  /** The first marker, in table order, whose file is present. */
  function FirstPresent(present: set<string>, markers: seq<Marker>): (first: Option<Marker>) {
    if markers == [] then None
    else
      var earlier := FirstPresent(present, markers[..|markers| - 1]);
      var m := markers[|markers| - 1];
      if earlier.Some? then earlier else if m.file in present then Some(m) else None
  }

  lemma {:induction false} NoMarkerNoTechnology(present: set<string>, markers: seq<Marker>)
    ensures PresentTechnologies(present, markers) == [] <==> forall m :: m in markers ==> m.file !in present
    ensures FirstPresent(present, markers).None? <==> PresentTechnologies(present, markers) == []
    ensures FirstPresent(present, markers).Some? ==>
      PresentTechnologies(present, markers)[0] == FirstPresent(present, markers).value.tech
  {
    if markers != [] {
      NoMarkerNoTechnology(present, markers[..|markers| - 1]);
      assert forall m :: m in markers <==> m in markers[..|markers| - 1] || m == markers[|markers| - 1];
    }
  }

  /** What `_detect_project_info` finds: the technologies of the present
      marker files, and type and description from the first of them. */
  function DetectedFor(root: string, present: set<string>): (d: Detected) {
    var name := PathName(root);
    var first := FirstPresent(present, Markers);
    Detected(name,
             if first.Some? then first.value.tech else UnknownType,
             if first.Some? then first.value.description else "Development project in " + name,
             PresentTechnologies(present, Markers))
  }

  /** The project type is the first detected technology, or "unknown" when
      no marker file is present; the description falls back to a generic one
      naming the project. */
  lemma DetectedMeaning(root: string, present: set<string>)
    ensures var d := DetectedFor(root, present);
      && (d.technologies == [] <==> forall m :: m in Markers ==> m.file !in present)
      && d.projectType == (if d.technologies == [] then UnknownType else d.technologies[0])
      && (d.technologies == [] ==> d.description == "Development project in " + PathName(root))
  {
    NoMarkerNoTechnology(present, Markers);
  }

  lemma MarkersKnown()
    ensures forall m :: m in Markers ==> m.tech != UnknownType
  {
  }

  lemma {:induction false} FirstPresentIn(present: set<string>, markers: seq<Marker>)
    ensures FirstPresent(present, markers).Some? ==>
      FirstPresent(present, markers).value in markers && FirstPresent(present, markers).value.file in present
  {
    if markers != [] {
      FirstPresentIn(present, markers[..|markers| - 1]);
    }
  }

  /** The loop of `_detect_project_info` over a marker table: every present
      marker file adds its technology, and the first one also sets the type
      and description. */
  method ScanMarkers(markers: seq<Marker>, present: set<string>, name: string)
    returns (projectType: string, description: string, technologies: seq<string>)
    requires forall m :: m in markers ==> m.tech != UnknownType
    ensures technologies == PresentTechnologies(present, markers)
    ensures projectType == if FirstPresent(present, markers).Some?
                           then FirstPresent(present, markers).value.tech else UnknownType
    ensures description == if FirstPresent(present, markers).Some?
                           then FirstPresent(present, markers).value.description
                           else "Development project in " + name
  {
    projectType := UnknownType;
    description := "Development project in " + name;
    technologies := [];
    for i := 0 to |markers|
      invariant technologies == PresentTechnologies(present, markers[..i])
      invariant projectType == if FirstPresent(present, markers[..i]).Some?
                               then FirstPresent(present, markers[..i]).value.tech else UnknownType
      invariant description == if FirstPresent(present, markers[..i]).Some?
                               then FirstPresent(present, markers[..i]).value.description
                               else "Development project in " + name
    {
      assert markers[..i + 1][..i] == markers[..i];
      FirstPresentIn(present, markers[..i]);
      var m := markers[i];
      if m.file in present {
        technologies := technologies + [m.tech];
        if projectType == UnknownType {
          projectType := m.tech;
          description := m.description;
        }
      }
    }
    assert markers[..|markers|] == markers;
  }

  /** `_detect_project_info` on the marker table of the source. */
  method DetectProjectInfo(root: string, present: set<string>) returns (d: Detected)
    ensures d == DetectedFor(root, present)
  {
    var name := PathName(root);
    MarkersKnown();
    var projectType, description, technologies := ScanMarkers(Markers, present, name);
    d := Detected(name, projectType, description, technologies);
  }
}
