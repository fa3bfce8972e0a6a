/**
 * The static tables of `server/src/resources.ts`: the settings dictionary built
 * from the dictionary entries, the required settings of each section, the
 * parent relation between sections and its ancestor closure.
 *
 * The dictionary entries are a parameter: reading and parsing the dictionary
 * file is not part of this model.
 */
module Resources {
  import opened Wrappers
  import opened Settings

  /** The dictionary: canonical setting name to setting. */
  type Dictionary = map<string, Setting>

  /** `isCompleteSetting`: display name, type and example are all present. */
  predicate IsCompleteSetting(raw: RawSetting) {
    raw.displayName.Some? && raw.typeTag.Some? && raw.example.Some?
  }

  /** The map `createSettingsMap` builds from the first `n` entries: each complete entry overwrites its name. */
  function SettingsMapOf(entries: seq<RawSetting>): (m: Dictionary)
    ensures forall k :: k in m ==> m[k].name == k && Normalised(m[k])
    ensures forall e :: e in entries && IsCompleteSetting(e) ==> NewSetting(e).name in m
  {
    if entries == [] then map[]
    else
      var m := SettingsMapOf(entries[..|entries| - 1]);
      var e := entries[|entries| - 1];
      assert forall x :: x in entries ==> x in entries[..|entries| - 1] || x == e;
      if IsCompleteSetting(e) then m[NewSetting(e).name := NewSetting(e)] else m
  }

  /** `createSettingsMap` over the given entries. */
  method CreateSettingsMap(entries: seq<RawSetting>) returns (m: Dictionary)
    ensures m == SettingsMapOf(entries)
  {
    m := map[];
    for i := 0 to |entries|
      invariant m == SettingsMapOf(entries[..i])
    {
      assert entries[..i + 1][..i] == entries[..i];
      if IsCompleteSetting(entries[i]) {
        var setting := NewSetting(entries[i]);
        m := m[setting.name := setting];
      }
    }
    assert entries[..|entries|] == entries;
  }

  /** The setting kept for a name is the last complete entry with that canonical name. */
  lemma {:induction false} LastEntryWins(entries: seq<RawSetting>, j: nat)
    requires j < |entries| && IsCompleteSetting(entries[j])
    requires forall k :: j < k < |entries| && IsCompleteSetting(entries[k])
               ==> NewSetting(entries[k]).name != NewSetting(entries[j]).name
    ensures SettingsMapOf(entries)[NewSetting(entries[j]).name] == NewSetting(entries[j])
    decreases |entries|
  {
    if j < |entries| - 1 {
      var prefix := entries[..|entries| - 1];
      LastEntryWins(prefix, j);
    }
  }

  /** Incomplete entries never reach the dictionary. */
  lemma {:induction false} OnlyCompleteEntries(entries: seq<RawSetting>, name: string)
    requires name in SettingsMapOf(entries)
    ensures exists e :: e in entries && IsCompleteSetting(e) && NewSetting(e) == SettingsMapOf(entries)[name]
    decreases |entries|
  {
    var prefix := entries[..|entries| - 1];
    var e := entries[|entries| - 1];
    if IsCompleteSetting(e) && NewSetting(e).name == name {
    } else {
      OnlyCompleteEntries(prefix, name);
      var x :| x in prefix && IsCompleteSetting(x) && NewSetting(x) == SettingsMapOf(prefix)[name];
      assert x in entries;
    }
  }

  /** The names `requiredSectionSettingsMap` looks up in the dictionary. */
  predicate HasRequiredNames(d: Dictionary) {
    "entity" in d && "value" in d && "entities" in d && "entitygroup" in d && "metric" in d
    && "table" in d && "attribute" in d && "type" in d && "onchange" in d && "changefield" in d
  }

  /** `requiredSectionSettingsMap`: for each section, the slots of which one option must be set. */
  function RequiredSectionSettings(d: Dictionary): (r: map<string, seq<seq<Setting>>>)
    requires HasRequiredNames(d)
    ensures r.Keys == {"series", "widget", "dropdown"}
    ensures |r["series"]| == 2 && |r["widget"]| == 1 && |r["dropdown"]| == 1
    ensures r["series"][0] == [d["entity"], d["value"], d["entities"], d["entitygroup"]]
    ensures r["series"][1] == [d["metric"], d["value"], d["table"], d["attribute"]]
    ensures r["widget"][0] == [d["type"]]
    ensures r["dropdown"][0] == [d["onchange"], d["changefield"]]
  {
    map[
      "series" := [[d["entity"], d["value"], d["entities"], d["entitygroup"]],
                   [d["metric"], d["value"], d["table"], d["attribute"]]],
      "widget" := [[d["type"]]],
      "dropdown" := [[d["onchange"], d["changefield"]]]
    ]
  }

  /** `parentSections`: the sections a section may be nested in. */
  const ParentSections: map<string, seq<string>> := map[
    "widget" := ["group", "configuration"],
    "series" := ["widget", "column"],
    "tag" := ["series"],
    "tags" := ["series"],
    "column" := ["widget"],
    "node" := ["widget"],
    "link" := ["widget"]
  ]

  /** The nesting depth of a section: every parent has a smaller rank than its child. */
  function Rank(section: string): nat {
    if section == "widget" then 1
    else if section in {"column", "node", "link"} then 2
    else if section == "series" then 3
    else if section in {"tag", "tags"} then 4
    else 0
  }

  lemma ParentsRankLower(section: string)
    ensures section in ParentSections ==> forall p :: p in ParentSections[section] ==> Rank(p) < Rank(section)
  {}

  /** The ancestor list `getParents` builds: each parent followed by its own ancestors, in order. */
  function Ancestors(section: string): seq<string>
    decreases Rank(section), 1, 0
  {
    if section in ParentSections then
      ParentsRankLower(section);
      AncestorsOfAll(ParentSections[section], Rank(section))
    else []
  }

  /** The ancestors contributed by a list of parents whose ranks are below `bound`. */
  function AncestorsOfAll(fathers: seq<string>, bound: nat): seq<string>
    requires forall f :: f in fathers ==> Rank(f) < bound
    decreases bound, 0, |fathers|
  {
    if fathers == [] then []
    else
      var last := fathers[|fathers| - 1];
      AncestorsOfAll(fathers[..|fathers| - 1], bound) + [last] + Ancestors(last)
  }

  /** `getParents`: a loop over the parents that recurses on each one. */
  method GetParents(section: string) returns (parents: seq<string>)
    ensures parents == Ancestors(section)
    decreases Rank(section)
  {
    parents := [];
    if section in ParentSections {
      var found := ParentSections[section];
      ParentsRankLower(section);
      for i := 0 to |found|
        invariant parents == AncestorsOfAll(found[..i], Rank(section))
      {
        assert found[..i + 1][..i] == found[..i];
        var grand := GetParents(found[i]);
        parents := parents + [found[i]] + grand;
      }
      assert found[..|found|] == found;
    }
  }

  /** Every ancestor has a lower rank, so no section is its own ancestor. */
  lemma {:induction false} AncestorsRankLower(section: string)
    ensures forall x :: x in Ancestors(section) ==> Rank(x) < Rank(section)
    decreases Rank(section), 1, 0
  {
    if section in ParentSections {
      ParentsRankLower(section);
      AncestorsOfAllRankLower(ParentSections[section], Rank(section));
    }
  }

  lemma {:induction false} AncestorsOfAllRankLower(fathers: seq<string>, bound: nat)
    requires forall f :: f in fathers ==> Rank(f) < bound
    ensures forall x :: x in AncestorsOfAll(fathers, bound) ==> Rank(x) < bound
    decreases bound, 0, |fathers|
  {
    if fathers != [] {
      var last := fathers[|fathers| - 1];
      AncestorsOfAllRankLower(fathers[..|fathers| - 1], bound);
      AncestorsRankLower(last);
    }
  }

  /** A section is never among its own ancestors. */
  lemma NotOwnAncestor(section: string)
    ensures section !in Ancestors(section)
  {
    AncestorsRankLower(section);
  }

  /** A section without an entry has no ancestors. */
  lemma NoEntryNoAncestors(section: string)
    requires section !in ParentSections
    ensures Ancestors(section) == []
  {}

  /** The ancestors are exactly the parents and the ancestors of the parents. */
  lemma AncestorsClosure(section: string, x: string)
    ensures x in Ancestors(section) <==>
      section in ParentSections && exists p :: p in ParentSections[section] && (x == p || x in Ancestors(p))
  {
    if section in ParentSections {
      ParentsRankLower(section);
      AncestorsOfAllMembers(ParentSections[section], Rank(section), x);
    }
  }

  lemma {:induction false} AncestorsOfAllMembers(fathers: seq<string>, bound: nat, x: string)
    requires forall f :: f in fathers ==> Rank(f) < bound
    ensures x in AncestorsOfAll(fathers, bound) <==> exists p :: p in fathers && (x == p || x in Ancestors(p))
    decreases |fathers|
  {
    if fathers != [] {
      var init := fathers[..|fathers| - 1];
      var last := fathers[|fathers| - 1];
      AncestorsOfAllMembers(init, bound, x);
      assert forall p :: p in fathers <==> p in init || p == last;
      var whole := AncestorsOfAll(init, bound) + [last] + Ancestors(last);
      assert AncestorsOfAll(fathers, bound) == whole;
      assert x in whole <==> x in AncestorsOfAll(init, bound) || x == last || x in Ancestors(last);
      if x in whole && !(x in AncestorsOfAll(init, bound)) {
        assert last in fathers;
      }
    }
  }

  /** `possibleSections` */
  const PossibleSections: seq<string> :=
    ["column", "configuration", "dropdown", "group", "keys", "link", "node", "option", "other", "placeholders",
     "properties", "property", "series", "tag", "tags", "threshold", "widget"]

  /** Every section that has parents, and every parent, is a possible section. */
  lemma ParentTableUsesKnownSections()
    ensures forall s :: s in ParentSections ==>
      (s in PossibleSections && forall p :: p in ParentSections[s] ==> p in PossibleSections)
  {}
}
