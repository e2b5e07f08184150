/**
 The assistant service's files: rules and skills addressed by file name, and their removal
 (crates/chisl-assistant/src/service.rs, filesystem helpers).
 */
module RuleFiles {
  import opened Wrappers

  /** File names to contents, in one directory. */
  type Files = map<string, string>

  function AssistantMdName(id: string, locale: Option<string>): string {
    if locale.Some? && locale.value != "" then id + "." + locale.value + ".md" else id + ".md"
  }

  predicate EndsWith(s: string, suffix: string) {
    |s| >= |suffix| && s[|s| - |suffix|..] == suffix
  }

  /** The rule or skill files deleted along with `id`. */
  predicate Matches(name: string, id: string) {
    name == id + ".md" || (id + "." <= name && EndsWith(name, ".md"))
  }

  function MdFilesOf(id: string): string -> bool { name => Matches(name, id) }

  function AvatarFilesOf(id: string): string -> bool { name => id + "." <= name }

  /** What a removal leaves; `stuck` are the files that cannot be removed. */
  function Remaining(files: Files, doomed: string -> bool, stuck: set<string>): Files {
    map name | name in files && (!doomed(name) || name in stuck) :: files[name]
  }

  function ReadFile(files: Files, name: string): string {
    if name in files then files[name] else ""
  }

  /** What befalls a write: nothing, no directory to write to, or a failure that leaves something of its own. */
  datatype Disk = Works | NoDirectory | Broken(left: Option<string>)

  function Written(files: Files, name: string, content: string, disk: Disk): Files {
    match disk
    case Works => files[name := content]
    case NoDirectory => files
    case Broken(left) => if left.Some? then files[name := left.value] else files
  }

  /** A write that works is there to be read; whatever befalls it, no other file changes. */
  lemma WrittenIs(files: Files, name: string, content: string, disk: Disk)
    ensures var files' := Written(files, name, content, disk);
            && (forall other :: other != name ==> (other in files' <==> other in files))
            && (forall other :: other != name && other in files ==> files'[other] == files[other])
            && (disk == Works ==> name in files' && files'[name] == content && ReadFile(files', name) == content)
            && (disk == NoDirectory || disk == Broken(None) ==> files' == files)
            && (disk.Broken? && disk.left.Some? ==> name in files' && files'[name] == disk.left.value)
  {
  }

  lemma RemainingIs(files: Files, doomed: string -> bool, stuck: set<string>, name: string)
    ensures var files' := Remaining(files, doomed, stuck);
            && (name in files' <==> name in files && (doomed(name) ==> name in stuck))
            && (name in files' ==> files'[name] == files[name])
  {
  }

  lemma BeyondExact(id: string, name: string)
    requires name != id + ".md" && id + "." <= name && EndsWith(name, ".md")
    ensures |name| >= |id| + 4
  {
    assert name == id + name[|id|..] && name[|id|] == (id + ".")[|id|] == '.';
    assert name[|name| - 3..] == ".md" && name[|name| - 2] == 'm' && name[|name| - 1] == 'd';
  }

  /** The rule and skill files of an id: `id.md`, and `id.something.md`. */
  lemma MdNames(id: string, name: string)
    ensures MdFilesOf(id)(name) <==> name == id + ".md" || exists middle :: name == id + "." + middle + ".md"
  {
    if name != id + ".md" && id + "." <= name && EndsWith(name, ".md") {
      BeyondExact(id, name);
      assert name == id + "." + name[|id| + 1..|name| - 3] + ".md";
    }
    if middle :| name == id + "." + middle + ".md" {
      assert id + "." <= name && EndsWith(name, ".md");
    }
  }

  /** Its avatar files: `id.` with any extension. */
  lemma AvatarNames(id: string, name: string)
    ensures AvatarFilesOf(id)(name) <==> exists extension :: name == id + "." + extension
  {
    if id + "." <= name {
      assert name == id + "." + name[|id| + 1..];
    }
  }

  /** Goes through a directory in any order; files that cannot be removed are passed over. */
  method RemoveFiles(files: Files, doomed: string -> bool, stuck: set<string>) returns (rest: Files, deleted: bool)
    ensures rest == Remaining(files, doomed, stuck)
    ensures deleted <==> rest != files
  {
    rest, deleted := files, false;
    var names := files.Keys;
    ghost var seen: set<string> := {};
    while names != {}
      invariant seen !! names && seen + names == files.Keys
      invariant rest == map name | name in files && (name in names || !doomed(name) || name in stuck) :: files[name]
      invariant deleted <==> exists name | name in seen :: doomed(name) && name !in stuck
      decreases names
    {
      var name :| name in names;
      names := names - {name};
      seen := seen + {name};
      if doomed(name) && name !in stuck {
        rest := rest - {name};
        deleted := true;
      }
    }
    if deleted {
      ghost var name :| name in seen && doomed(name) && name !in stuck;
      assert name in files && name !in rest;
    }
  }

  // ------------------------------------------------------------------
  // Names
  // ------------------------------------------------------------------

  /** No id continues another after a dot. */
  ghost predicate Apart(ids: iset<string>) {
    forall a, b | a in ids && b in ids :: !(a + "." <= b)
  }

  /** Ids without dots are apart, for one. */
  lemma DotFreeApart(ids: iset<string>)
    requires forall id | id in ids :: '.' !in id
    ensures Apart(ids)
  {
    forall a, b | a in ids && b in ids ensures !(a + "." <= b) {
      if a + "." <= b {
        ExtensionHasDot(a, b);
      }
    }
  }

  lemma ExtensionHasDot(id: string, longer: string)
    requires id + "." <= longer
    ensures '.' in longer
  {
    assert longer[|id|] == (id + ".")[|id|];
  }

  /** No locale and the empty locale are the same. */
  function Normal(locale: Option<string>): string {
    locale.GetOr("")
  }

  /** The name without its `.md`. */
  function Stem(id: string, locale: Option<string>): string {
    if Normal(locale) == "" then id else id + "." + Normal(locale)
  }

  lemma NameIsStem(id: string, locale: Option<string>)
    ensures AssistantMdName(id, locale) == Stem(id, locale) + ".md"
  {
  }

  lemma NamesEqualIffStemsEqual(id1: string, l1: Option<string>, id2: string, l2: Option<string>)
    ensures AssistantMdName(id1, l1) == AssistantMdName(id2, l2) <==> Stem(id1, l1) == Stem(id2, l2)
  {
    NameIsStem(id1, l1);
    NameIsStem(id2, l2);
    var a, b := AssistantMdName(id1, l1), AssistantMdName(id2, l2);
    if a == b {
      assert Stem(id1, l1) == a[..|a| - 3] && Stem(id2, l2) == b[..|b| - 3];
    }
  }

  /** In general two ids can name the same file exactly when one continues the other after a dot. */
  lemma CollideIffDotExtension(id1: string, id2: string)
    requires id1 != id2
    ensures (exists l1, l2 :: AssistantMdName(id1, l1) == AssistantMdName(id2, l2)) <==>
            id1 + "." <= id2 || id2 + "." <= id1
  {
    if id1 + "." <= id2 {
      ExtensionCollides(id1, id2);
    } else if id2 + "." <= id1 {
      ExtensionCollides(id2, id1);
    }
    forall l1, l2 | AssistantMdName(id1, l1) == AssistantMdName(id2, l2)
      ensures id1 + "." <= id2 || id2 + "." <= id1
    {
      var name := AssistantMdName(id1, l1);
      assert id1 + "." == name[..|id1| + 1] && id2 + "." == name[..|id2| + 1];
      assert id1 == name[..|id1|] && id2 == name[..|id2|];
    }
  }

  lemma ExtensionCollides(id: string, longer: string)
    requires id + "." <= longer
    ensures AssistantMdName(id, Some(longer[|id| + 1..] + ".x")) == AssistantMdName(longer, Some("x"))
  {
    assert longer == id + "." + longer[|id| + 1..];
  }

  /** For ids that are apart the file name gives back the id and the locale. */
  lemma NamesInjective(ids: iset<string>, id1: string, l1: Option<string>, id2: string, l2: Option<string>)
    requires Apart(ids) && id1 in ids && id2 in ids && AssistantMdName(id1, l1) == AssistantMdName(id2, l2)
    ensures id1 == id2 && Normal(l1) == Normal(l2)
  {
    if id1 != id2 {
      CollideIffDotExtension(id1, id2);
    }
    NamesEqualIffStemsEqual(id1, l1, id2, l2);
    var stem := Stem(id1, l1);
    assert Normal(l1) == if |stem| > |id1| then stem[|id1| + 1..] else "";
    assert Normal(l2) == if |stem| > |id2| then stem[|id2| + 1..] else "";
  }

  /** A delete takes the files whose name is the id or continues it after a dot, and no others. */
  lemma DeleteReach(id: string, owner: string, locale: Option<string>)
    ensures Matches(AssistantMdName(owner, locale), id) <==>
            Stem(owner, locale) == id || id + "." <= Stem(owner, locale)
  {
    NameIsStem(owner, locale);
    var stem, name := Stem(owner, locale), AssistantMdName(owner, locale);
    assert EndsWith(name, ".md");
    if name == id + ".md" {
      assert id == name[..|name| - 3] && stem == name[..|name| - 3];
    } else if id + "." <= name {
      assert (id + ".")[|id|] == '.' == name[|id|];
      if |id| < |stem| {
        assert id + "." == name[..|id| + 1] == stem[..|id| + 1];
      }
    }
  }

  /** Deleting an id reaches a file of another just when one of the two ids continues the other after a dot. */
  lemma DeleteReachesOther(id: string, owner: string)
    requires id != owner
    ensures (exists locale :: Matches(AssistantMdName(owner, locale), id)) <==> id + "." <= owner || owner + "." <= id
  {
    if id + "." <= owner {
      DeleteReach(id, owner, None);
      assert Matches(AssistantMdName(owner, None), id);
    } else if owner + "." <= id {
      var locale := Some(id[|owner| + 1..] + ".x");
      ExtensionCollides(owner, id);
      DeleteReach(id, id, Some("x"));
      assert Matches(AssistantMdName(owner, locale), id);
    }
    forall locale | Matches(AssistantMdName(owner, locale), id) ensures id + "." <= owner || owner + "." <= id {
      DeleteReach(id, owner, locale);
      var stem := Stem(owner, locale);
      assert owner == stem[..|owner|] && id == stem[..|id|];
      if |id| < |owner| {
        assert (id + ".") == stem[..|id| + 1] == owner[..|id| + 1];
      } else if |owner| < |id| {
        assert (owner + ".") == stem[..|owner| + 1] == id[..|owner| + 1];
      }
    }
  }

  /** After a delete that nothing obstructs no locale of the id is left, whatever dots the id has. */
  lemma DeleteEmptiesId(files: Files, id: string, locale: Option<string>)
    ensures ReadFile(Remaining(files, MdFilesOf(id), {}), AssistantMdName(id, locale)) == ""
  {
    DeleteReach(id, id, locale);
    assert Stem(id, locale) == id || id + "." <= Stem(id, locale);
  }

  // ------------------------------------------------------------------
  // The directory as a map from (id, locale) to content
  // ------------------------------------------------------------------

  type RuleKey = (string, string)
  type Rules = map<RuleKey, string>

  function NameOf(key: RuleKey): string {
    AssistantMdName(key.0, Some(key.1))
  }

  /** The directory holds this rule, whose id is among `ids`. */
  ghost predicate Holds(ids: iset<string>, files: Files, key: RuleKey, content: string) {
    key.0 in ids && NameOf(key) in files && files[NameOf(key)] == content
  }

  /** It holds these rules and nothing else. */
  ghost predicate Represents(ids: iset<string>, files: Files, rules: Rules) {
    && (forall key | key in rules :: Holds(ids, files, key, rules[key]))
    && (forall name | name in files :: exists key :: key in rules && NameOf(key) == name)
  }

  lemma WrittenKey(ids: iset<string>, files: Files, rules: Rules, k: RuleKey, content: string, key: RuleKey)
    requires Apart(ids) && Represents(ids, files, rules) && k.0 in ids && key in rules[k := content]
    ensures Holds(ids, files[NameOf(k) := content], key, rules[k := content][key])
  {
    if key in rules {
      assert Holds(ids, files, key, rules[key]);
    }
    if NameOf(key) == NameOf(k) {
      NamesInjective(ids, key.0, Some(key.1), k.0, Some(k.1));
    }
  }

  lemma WrittenName(ids: iset<string>, files: Files, rules: Rules, k: RuleKey, content: string, name: string)
    requires Represents(ids, files, rules) && name in files[NameOf(k) := content]
    ensures exists key :: key in rules[k := content] && NameOf(key) == name
  {
    if name == NameOf(k) {
      assert k in rules[k := content];
    } else {
      var key :| key in rules && NameOf(key) == name;
      assert key in rules[k := content];
    }
  }

  lemma WriteRefines(ids: iset<string>, files: Files, rules: Rules, id: string, locale: Option<string>, content: string)
    requires Apart(ids) && Represents(ids, files, rules) && id in ids
    ensures Represents(ids, Written(files, AssistantMdName(id, locale), content, Works),
                       rules[(id, Normal(locale)) := content])
  {
    var k := (id, Normal(locale));
    assert NameOf(k) == AssistantMdName(id, locale);
    var files', rules' := files[NameOf(k) := content], rules[k := content];
    forall key | key in rules' ensures Holds(ids, files', key, rules'[key]) {
      WrittenKey(ids, files, rules, k, content, key);
    }
    forall name | name in files' ensures exists key :: key in rules' && NameOf(key) == name {
      WrittenName(ids, files, rules, k, content, name);
    }
  }

  lemma ReadRefines(ids: iset<string>, files: Files, rules: Rules, id: string, locale: Option<string>)
    requires Apart(ids) && Represents(ids, files, rules) && id in ids
    ensures var k := (id, Normal(locale));
            ReadFile(files, AssistantMdName(id, locale)) == if k in rules then rules[k] else ""
  {
    var k := (id, Normal(locale));
    assert NameOf(k) == AssistantMdName(id, locale);
    if NameOf(k) in files {
      var key :| key in rules && NameOf(key) == NameOf(k);
      NamesInjective(ids, key.0, Some(key.1), k.0, Some(k.1));
    }
  }

  lemma MatchesOwnNames(ids: iset<string>, key: RuleKey, id: string)
    requires Apart(ids) && key.0 in ids && id in ids
    ensures Matches(NameOf(key), id) <==> key.0 == id
  {
    if key.0 == id {
      DeleteReach(id, id, Some(key.1));
    } else {
      DeleteReachesOther(id, key.0);
    }
  }

  function RulesWithout(rules: Rules, id: string): Rules {
    map key | key in rules && key.0 != id :: rules[key]
  }

  lemma RemainingName(files: Files, id: string, name: string)
    ensures var files' := Remaining(files, MdFilesOf(id), {});
            && (name in files' <==> name in files && !Matches(name, id))
            && (name in files' ==> files'[name] == files[name])
  {
  }

  lemma RemainingKey(ids: iset<string>, files: Files, rules: Rules, id: string, key: RuleKey)
    requires Apart(ids) && Represents(ids, files, rules) && id in ids && key in rules && key.0 != id
    ensures Holds(ids, Remaining(files, MdFilesOf(id), {}), key, rules[key])
  {
    assert Holds(ids, files, key, rules[key]);
    MatchesOwnNames(ids, key, id);
    RemainingName(files, id, NameOf(key));
  }

  lemma RemainingIsNamed(ids: iset<string>, files: Files, rules: Rules, id: string, name: string)
    requires Apart(ids) && Represents(ids, files, rules) && id in ids && name in Remaining(files, MdFilesOf(id), {})
    ensures exists key :: key in RulesWithout(rules, id) && NameOf(key) == name
  {
    RemainingName(files, id, name);
    var key :| key in rules && NameOf(key) == name;
    MatchesOwnNames(ids, key, id);
    assert key in RulesWithout(rules, id);
  }

  /** Deleting an id empties all of its locales and nothing else. */
  lemma DeleteRefines(ids: iset<string>, files: Files, rules: Rules, id: string)
    requires Apart(ids) && Represents(ids, files, rules) && id in ids
    ensures Represents(ids, Remaining(files, MdFilesOf(id), {}), RulesWithout(rules, id))
  {
    forall key | key in RulesWithout(rules, id)
      ensures Holds(ids, Remaining(files, MdFilesOf(id), {}), key, rules[key])
    {
      RemainingKey(ids, files, rules, id, key);
    }
    forall name | name in Remaining(files, MdFilesOf(id), {})
      ensures exists key :: key in RulesWithout(rules, id) && NameOf(key) == name
    {
      RemainingIsNamed(ids, files, rules, id, name);
    }
  }

  /** It reports a deletion just when there was a rule of that id. */
  lemma DeleteReports(ids: iset<string>, files: Files, rules: Rules, id: string)
    requires Apart(ids) && Represents(ids, files, rules) && id in ids
    ensures Remaining(files, MdFilesOf(id), {}) != files <==> exists key | key in rules :: key.0 == id
  {
    if key :| key in rules && key.0 == id {
      MatchesOwnNames(ids, key, id);
      RemainingName(files, id, NameOf(key));
    } else {
      forall name | name in files ensures name in Remaining(files, MdFilesOf(id), {}) {
        var key :| key in rules && NameOf(key) == name;
        MatchesOwnNames(ids, key, id);
        RemainingName(files, id, name);
      }
    }
  }

  datatype Op = Write(id: string, locale: Option<string>, content: string) | Delete(id: string)

  function FilesAfter(ops: seq<Op>): Files {
    if ops == [] then map[] else
    var files, op := FilesAfter(ops[..|ops| - 1]), ops[|ops| - 1];
    if op.Write? then Written(files, AssistantMdName(op.id, op.locale), op.content, Works)
    else Remaining(files, MdFilesOf(op.id), {})
  }

  function RulesAfter(ops: seq<Op>): Rules {
    if ops == [] then map[] else
    var rules, op := RulesAfter(ops[..|ops| - 1]), ops[|ops| - 1];
    if op.Write? then rules[(op.id, Normal(op.locale)) := op.content]
    else RulesWithout(rules, op.id)
  }

  predicate Within(ids: iset<string>, ops: seq<Op>) {
    forall i | 0 <= i < |ops| :: ops[i].id in ids
  }

  lemma {:induction false} FilesRepresentRules(ids: iset<string>, ops: seq<Op>)
    requires Apart(ids) && Within(ids, ops)
    ensures Represents(ids, FilesAfter(ops), RulesAfter(ops))
  {
    if ops != [] {
      var init, op := ops[..|ops| - 1], ops[|ops| - 1];
      FilesRepresentRules(ids, init);
      if op.Write? {
        WriteRefines(ids, FilesAfter(init), RulesAfter(init), op.id, op.locale, op.content);
      } else {
        DeleteRefines(ids, FilesAfter(init), RulesAfter(init), op.id);
      }
    }
  }

  /** After `ops` a read gives what a map keyed by (id, locale) holds. */
  predicate ReadsAsMap(ops: seq<Op>, id: string, locale: Option<string>) {
    var k := (id, Normal(locale));
    ReadFile(FilesAfter(ops), AssistantMdName(id, locale)) == if k in RulesAfter(ops) then RulesAfter(ops)[k] else ""
  }

  /** After any writes and deletes of ids that are apart every read is that of a map. */
  lemma RulesBehaveAsMap(ids: iset<string>, ops: seq<Op>, id: string, locale: Option<string>)
    requires Apart(ids) && Within(ids, ops) && id in ids
    ensures ReadsAsMap(ops, id, locale)
  {
    FilesRepresentRules(ids, ops);
    ReadRefines(ids, FilesAfter(ops), RulesAfter(ops), id, locale);
  }

  /** And only of such ids. */
  lemma RulesBehaveAsMapIffApart(ids: iset<string>)
    ensures (forall ops, id, locale | Within(ids, ops) && id in ids :: ReadsAsMap(ops, id, locale)) <==> Apart(ids)
  {
    if Apart(ids) {
      forall ops, id, locale | Within(ids, ops) && id in ids ensures ReadsAsMap(ops, id, locale) {
        RulesBehaveAsMap(ids, ops, id, locale);
      }
    } else {
      var a, b :| a in ids && b in ids && a + "." <= b;
      ReadsForeignRule(a, b);
      assert Within(ids, [Write(b, Some("x"), "rule")]);
    }
  }

  /** A rule of the longer id is read as one of the shorter id. */
  lemma ReadsForeignRule(id: string, longer: string)
    requires id + "." <= longer
    ensures !ReadsAsMap([Write(longer, Some("x"), "rule")], id, Some(longer[|id| + 1..] + ".x"))
  {
    var ops, locale := [Write(longer, Some("x"), "rule")], Some(longer[|id| + 1..] + ".x");
    ExtensionCollides(id, longer);
    assert ops[..0] == [] && FilesAfter([]) == map[] && RulesAfter([]) == map[];
    assert FilesAfter(ops) == map[AssistantMdName(longer, Some("x")) := "rule"];
    assert RulesAfter(ops) == map[(longer, "x") := "rule"];
    assert |id| < |longer|;
  }
}
