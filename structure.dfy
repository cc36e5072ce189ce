/** Loading-time handling of the raw JSON documents: `_load_config`, which
    overlays a user configuration on the defaults, and
    `_ensure_memory_structure`, which backfills missing sections of a loaded
    memory document. Python's `in` and item assignment are modelled with their
    `TypeError` cases: an error makes `_load_memory` fall back to a fresh
    memory. Numbers are integers here. */
module Structure {
  import opened Text
  import opened Records

  datatype Json =
    | JNull
    | JBool(b: bool)
    | JNum(n: int)
    | JStr(s: string)
    | JArr(items: seq<Json>)
    | JObj(fields: map<string, Json>)

  /** `default_config` of `_load_config`. */
  const DefaultConfig: map<string, Json> := map[
    "max_conversation_history" := JNum(100),
    "backup_enabled" := JBool(true),
    "backup_interval" := JNum(3600),
    "compression_enabled" := JBool(false),
    "auto_detect_project_type" := JBool(true)
  ]

  /** `_load_config`: `user` is the parsed configuration file, or `None`
      when there is none or it cannot be read or parsed. `dict.update` with a
      JSON object overrides the defaults key by key; anything else leaves the
      defaults as they are. */
  function LoadConfig(user: Option<Json>): (config: map<string, Json>)
    ensures forall k :: k in DefaultConfig ==> k in config
    ensures user.Some? && user.value.JObj? ==>
      forall k :: k in config <==> k in DefaultConfig || k in user.value.fields
    ensures user.Some? && user.value.JObj? ==>
      forall k :: k in user.value.fields ==> config[k] == user.value.fields[k]
    ensures forall k :: k in DefaultConfig && (user.None? || !user.value.JObj? || k !in user.value.fields) ==>
      config[k] == DefaultConfig[k]
  {
    if user.Some? && user.value.JObj? then DefaultConfig + user.value.fields else DefaultConfig
  }

  /** `required_sections`, in the order the source lists them. */
  const RequiredSections: seq<string> := [
    "project_info", "implementation_status", "architecture",
    "current_priorities", "working_solutions", "known_issues",
    "lessons_learned", "conversation_history", "metadata"
  ]

  /** The sections the source backfills with `[]`; every other one gets `{}`. */
  const WrittenListSections: set<string> := {"current_priorities"}

  /** The sections the rest of the store uses as lists. */
  const ListSections: set<string> := {"current_priorities", "lessons_learned", "conversation_history"}

  lemma SectionNames()
    ensures "implementation_status" in RequiredSections && "architecture" in RequiredSections
    ensures forall s :: s in ListSections ==> s in RequiredSections
    ensures "implementation_status" != "architecture"
    ensures "lessons_learned" !in WrittenListSections && "conversation_history" !in WrittenListSections
    ensures "implementation_status" !in ListSections && "architecture" !in ListSections
    ensures WrittenListSections <= ListSections
  {
    assert RequiredSections[1] == "implementation_status";
    assert RequiredSections[2] == "architecture";
    assert RequiredSections[3] == "current_priorities";
    assert RequiredSections[6] == "lessons_learned";
    assert RequiredSections[7] == "conversation_history";
  }

  function DefaultSection(section: string, listSections: set<string>): (v: Json)
    ensures section in listSections ==> v == JArr([])
    ensures section !in listSections ==> v == JObj(map[])
  {
    if section in listSections then JArr([]) else JObj(map[])
  }

  /** Python's `key in v` for a string key; `None` is the `TypeError` raised
      for numbers, booleans and `None`. */
  function PyContains(v: Json, key: string): (r: Option<bool>)
    ensures v.JObj? ==> r == Some(key in v.fields)
    ensures v.JArr? ==> r == Some(JStr(key) in v.items)
    ensures v.JStr? ==> r == Some(IsSubstring(key, v.s))
    ensures r.None? <==> v.JNull? || v.JBool? || v.JNum?
  {
    match v
    case JObj(fields) => Some(key in fields)
    case JArr(items) => Some(JStr(key) in items)
    case JStr(s) => Some(IsSubstring(key, s))
    case _ => None
  }

  /** Python's `v[key] = value` for a string key: only a dictionary accepts it. */
  function PySetItem(v: Json, key: string, value: Json): (r: Option<Json>)
    ensures r.Some? <==> v.JObj?
    ensures r.Some? ==> r.value == JObj(v.fields[key := value])
  {
    if v.JObj? then Some(JObj(v.fields[key := value])) else None
  }

  /** The first loop of `_ensure_memory_structure`, as a specification: every
      section missing from `fields` is added with its default. */
  function FillSections(fields: map<string, Json>, sections: seq<string>, listSections: set<string>)
    : (r: map<string, Json>)
  {
    if sections == [] then fields
    else
      var s := sections[|sections| - 1];
      var earlier := FillSections(fields, sections[..|sections| - 1], listSections);
      if s in earlier then earlier else earlier[s := DefaultSection(s, listSections)]
  }

  /** `if key not in memory[section]: memory[section][key] = value`, with the
      errors Python raises. */
  function EnsureSubsection(fields: map<string, Json>, section: string, key: string, value: Json)
    : (r: Option<map<string, Json>>)
    requires section in fields
  {
    match PyContains(fields[section], key)
    case None => None
    case Some(true) => Some(fields)
    case Some(false) =>
      match PySetItem(fields[section], key, value)
      case None => None
      case Some(v) => Some(fields[section := v])
  }

  lemma EnsureSubsectionKeys(fields: map<string, Json>, section: string, key: string, value: Json)
    requires section in fields
    ensures EnsureSubsection(fields, section, key, value).Some? ==>
      var r := EnsureSubsection(fields, section, key, value).value;
      && (forall s :: s in r <==> s in fields)
      && (forall s :: s in fields && s != section ==> r[s] == fields[s])
      && PyContains(r[section], key) == Some(true)
    ensures fields[section].JObj? ==> EnsureSubsection(fields, section, key, value).Some?
  {
  }

  /** `_ensure_memory_structure` as a specification, with the sections in
      `listSections` backfilled as lists. A document that is not a JSON
      object cannot be indexed by a string, so it is an error. */
  function EnsureStructure(memory: Json, listSections: set<string>): (r: Option<map<string, Json>>)
  {
    if !memory.JObj? then None
    else
      var filled := FillSections(memory.fields, RequiredSections, listSections);
      FilledHasSections(memory.fields, RequiredSections, listSections);
      SectionNames();
      match EnsureSubsection(filled, "implementation_status", "components", JObj(map[]))
      case None => None
      case Some(withComponents) =>
        EnsureSubsectionKeys(filled, "implementation_status", "components", JObj(map[]));
        EnsureSubsection(withComponents, "architecture", "decisions", JArr([]))
  }

  lemma {:induction false} FilledHasSections(fields: map<string, Json>, sections: seq<string>, listSections: set<string>)
    ensures var r := FillSections(fields, sections, listSections);
      && (forall s :: s in r <==> s in fields || s in sections)
      && (forall s :: s in fields ==> r[s] == fields[s])
      && (forall s :: s in r && s !in fields ==> r[s] == DefaultSection(s, listSections))
  {
    if sections != [] {
      var init := sections[..|sections| - 1];
      FilledHasSections(fields, init, listSections);
      assert forall s :: s in sections <==> s in init || s == sections[|sections| - 1];
    }
  }

  /** `_ensure_memory_structure`, with the loop over the required sections;
      the source backfills only `current_priorities` as a list. */
  method EnsureMemoryStructure(memory: Json) returns (r: Option<map<string, Json>>)
    ensures r == EnsureStructure(memory, WrittenListSections)
  {
    if !memory.JObj? {
      return None;
    }
    var fields := memory.fields;
    for i := 0 to |RequiredSections|
      invariant fields == FillSections(memory.fields, RequiredSections[..i], WrittenListSections)
    {
      assert RequiredSections[..i + 1][..i] == RequiredSections[..i];
      var section := RequiredSections[i];
      if section !in fields {
        fields := fields[section := if section != "current_priorities" then JObj(map[]) else JArr([])];
      }
    }
    assert RequiredSections[..|RequiredSections|] == RequiredSections;
    FilledHasSections(memory.fields, RequiredSections, WrittenListSections);
    SectionNames();
    r := EnsureSubsection(fields, "implementation_status", "components", JObj(map[]));
    if r.Some? {
      EnsureSubsectionKeys(fields, "implementation_status", "components", JObj(map[]));
      r := EnsureSubsection(r.value, "architecture", "decisions", JArr([]));
    }
  }

  /** After a successful check every required section is present, the
      components and decisions subsections are present, every section the
      document already had is kept (the two touched sections only gain a
      key), and every added section holds its default. */
  lemma StructureComplete(memory: Json, listSections: set<string>)
    requires EnsureStructure(memory, listSections).Some?
    ensures var r := EnsureStructure(memory, listSections).value;
      && (forall s :: s in r <==> s in memory.fields || s in RequiredSections)
      && "implementation_status" in r && "architecture" in r
      && PyContains(r["implementation_status"], "components") == Some(true)
      && PyContains(r["architecture"], "decisions") == Some(true)
      && (forall s :: s in memory.fields && s != "implementation_status" && s != "architecture" ==>
            r[s] == memory.fields[s])
      && (forall s :: s in r && s !in memory.fields && s != "implementation_status" && s != "architecture" ==>
            r[s] == DefaultSection(s, listSections))
  {
    var filled := FillSections(memory.fields, RequiredSections, listSections);
    FilledHasSections(memory.fields, RequiredSections, listSections);
    SectionNames();
    EnsureSubsectionKeys(filled, "implementation_status", "components", JObj(map[]));
    var withComponents := EnsureSubsection(filled, "implementation_status", "components", JObj(map[])).value;
    EnsureSubsectionKeys(withComponents, "architecture", "decisions", JArr([]));
  }

  /** A document that is not a JSON object is rejected; a JSON object whose
      `implementation_status` and `architecture` sections, where present, are
      objects is accepted (neither of those two is backfilled as a list). */
  lemma StructureAccepts(memory: Json, listSections: set<string>)
    requires "implementation_status" !in listSections && "architecture" !in listSections
    ensures !memory.JObj? ==> EnsureStructure(memory, listSections).None?
    ensures memory.JObj?
      && (forall s :: s in memory.fields && (s == "implementation_status" || s == "architecture") ==>
            memory.fields[s].JObj?)
      ==> EnsureStructure(memory, listSections).Some?
  {
    if memory.JObj? && (forall s :: s in memory.fields && (s == "implementation_status" || s == "architecture") ==>
                                       memory.fields[s].JObj?) {
      var filled := FillSections(memory.fields, RequiredSections, listSections);
      FilledHasSections(memory.fields, RequiredSections, listSections);
      SectionNames();
      assert filled["implementation_status"].JObj?;
      EnsureSubsectionKeys(filled, "implementation_status", "components", JObj(map[]));
      var withComponents := EnsureSubsection(filled, "implementation_status", "components", JObj(map[])).value;
      assert withComponents["architecture"] == filled["architecture"];
      EnsureSubsectionKeys(withComponents, "architecture", "decisions", JArr([]));
    }
  }

  /** Checking twice gives the same document as checking once. */
  lemma Idempotent(memory: Json, listSections: set<string>)
    requires EnsureStructure(memory, listSections).Some?
    ensures EnsureStructure(JObj(EnsureStructure(memory, listSections).value), listSections)
         == EnsureStructure(memory, listSections)
  {
    var r := EnsureStructure(memory, listSections).value;
    StructureComplete(memory, listSections);
    FilledHasSections(r, RequiredSections, listSections);
    assert FillSections(r, RequiredSections, listSections) == r;
  }

  /** As written, a memory file without `conversation_history` comes out with
      that section as an empty dictionary, so the next
      `log_conversation_context` fails on `.append`; `lessons_learned` is
      backfilled the same way. */
  lemma WrittenBackfillsHistoryAsDict()
    ensures EnsureStructure(JObj(map[]), WrittenListSections).Some?
    ensures "conversation_history" in EnsureStructure(JObj(map[]), WrittenListSections).value
    ensures EnsureStructure(JObj(map[]), WrittenListSections).value["conversation_history"] == JObj(map[])
    ensures "lessons_learned" in EnsureStructure(JObj(map[]), WrittenListSections).value
    ensures EnsureStructure(JObj(map[]), WrittenListSections).value["lessons_learned"] == JObj(map[])
  {
    SectionNames();
    StructureAccepts(JObj(map[]), WrittenListSections);
    StructureComplete(JObj(map[]), WrittenListSections);
  }

  /** With the list sections backfilled as lists, a list section missing from
      the document is `[]` after the check, and one present is kept. */
  lemma MissingListSectionsBecomeLists(memory: Json)
    requires EnsureStructure(memory, ListSections).Some?
    ensures forall s :: s in ListSections ==> s in EnsureStructure(memory, ListSections).value
    ensures forall s :: s in ListSections && s !in memory.fields ==>
      EnsureStructure(memory, ListSections).value[s] == JArr([])
    ensures forall s :: s in ListSections && s in memory.fields ==>
      EnsureStructure(memory, ListSections).value[s] == memory.fields[s]
  {
    StructureComplete(memory, ListSections);
    SectionNames();
  }

  /** The corrected check: the same loop, with every list section
      backfilled as `[]`. */
  method EnsureMemoryStructureFixed(memory: Json) returns (r: Option<map<string, Json>>)
    ensures r == EnsureStructure(memory, ListSections)
  {
    if !memory.JObj? {
      return None;
    }
    var fields := memory.fields;
    for i := 0 to |RequiredSections|
      invariant fields == FillSections(memory.fields, RequiredSections[..i], ListSections)
    {
      assert RequiredSections[..i + 1][..i] == RequiredSections[..i];
      var section := RequiredSections[i];
      if section !in fields {
        fields := fields[section := if section in ListSections then JArr([]) else JObj(map[])];
      }
    }
    assert RequiredSections[..|RequiredSections|] == RequiredSections;
    FilledHasSections(memory.fields, RequiredSections, ListSections);
    SectionNames();
    r := EnsureSubsection(fields, "implementation_status", "components", JObj(map[]));
    if r.Some? {
      EnsureSubsectionKeys(fields, "implementation_status", "components", JObj(map[]));
      r := EnsureSubsection(r.value, "architecture", "decisions", JArr([]));
    }
  }
}
