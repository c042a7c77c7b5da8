/** tools/buildroot_compliance_bundle.py: generating the toolchain lock from a merged summary, and
    the two validators it has to pass. */
module LockRecord {
  import opened Options
  import opened Ordering
  import opened PosixPaths
  import opened LockMerge

  datatype Artifact = Artifact(name: string, url: string, sha256: string, size: nat)

  datatype Locked = Locked(name: string, version: string, occurrences: nat,
    licenses: seq<string>, source: Option<Artifact>, site: string, files: seq<Artifact>)

  datatype Counts = Counts(rows: nat, components: nat, sources: nat, files: nat, objects: nat)

  datatype Toolchain = Toolchain(package: string, version: string, archive: string, archiveSha: string)

  /** `builder` is the object that names the builder's repository, ref and commit. */
  datatype Lock = Lock(schema: string, toolchain: Toolchain, readme: Artifact, summary: Artifact,
    builder: map<string, string>, components: seq<Locked>, counts: Counts)

  datatype Config = Config(toolchain: Toolchain, builder: map<string, string>, readmeUrl: string, readmeSha: string,
                           summaryUrl: string, summarySha: string, sources: string, licenses: string)

  const LOCK_SCHEMA := "hidloom.bootlin-toolchain-components.v1"

  /** Percent-encoding of a relative path, and what a URL delivers: digest and size. */
  datatype Outside = Outside(encoded: string -> string, fetch: string -> (string, nat))

  predicate IsSha(s: string) {
    |s| == 64 && forall c | c in s :: '0' <= c <= '9' || 'a' <= c <= 'f'
  }

  /** An encoded path has no leading slash, and that of a component id is not empty. */
  ghost predicate IsSane(out: Outside) {
    && (forall s :: out.encoded(s) == "" || out.encoded(s)[0] != '/')
    && (forall s :: '-' in s || s == "buildroot" ==> out.encoded(s) != "")
    && forall url :: IsSha(out.fetch(url).0)
  }

  function OfficialUrl(out: Outside, base: string, component: string, relative: string): string {
    StripSlashes(base) + "/" + out.encoded(component) + "/" + out.encoded(relative)
  }

  const NOT_SAVED := "not saved"

  function ComponentId(key: Key): string
    requires |key| == 2
  {
    key[0] + "-" + key[1]
  }

  function LicenseComponentId(key: Key, c: Component): string
    requires |key| == 2
  {
    if key[0] == "buildroot" && c.archive == NOT_SAVED then "buildroot" else ComponentId(key)
  }

  function SourceUrl(out: Outside, config: Config, key: Key, c: Component): string
    requires |key| == 2
  {
    OfficialUrl(out, config.sources, ComponentId(key), c.archive)
  }

  function LicenseUrl(out: Outside, config: Config, key: Key, c: Component, name: string): string
    requires |key| == 2
  {
    OfficialUrl(out, config.licenses, LicenseComponentId(key, c), name)
  }

  function SortedNames(names: set<string>): (sorted: seq<string>)
    ensures (forall name :: name in sorted <==> name in names) && Increasing(StringLess, sorted)
    ensures forall i, j | 0 <= i < j < |sorted| :: sorted[i] != sorted[j]
  {
    StringOrder();
    SortedIsSet(StringLess, names);
    Sorted(StringLess, names)
  }

  // ----- the lock ----------------------------------------------------------------------------------

  function Fetched(out: Outside, name: string, url: string): Artifact {
    Artifact(name, url, out.fetch(url).0, out.fetch(url).1)
  }

  function LockedOf(out: Outside, config: Config, key: Key, c: Component): Locked
    requires |key| == 2
  {
    var names := SortedNames(c.files);
    Locked(key[0], key[1], c.occurrences, SortedNames(c.licenses),
      if c.archive == NOT_SAVED then None else Some(Fetched(out, c.archive, SourceUrl(out, config, key, c))),
      c.site,
      seq(|names|, i requires 0 <= i < |names| => Fetched(out, names[i], LicenseUrl(out, config, key, c, names[i]))))
  }

  function Artifacts(l: Locked): seq<Artifact> { (if l.source.Some? then [l.source.value] else []) + l.files }

  function CountsOf(components: seq<Locked>): Counts {
    if components == [] then Counts(0, 0, 0, 0, 0) else
      var front, last := components[..|components| - 1], components[|components| - 1];
      var c := CountsOf(front);
      Counts(c.rows + last.occurrences, c.components + 1, c.sources + (if last.source.Some? then 1 else 0),
        c.files + |last.files|, |set l, a | l in components && a in Artifacts(l) :: a.sha256|)
  }

  predicate IsPinned(out: Outside, config: Config) {
    out.fetch(config.readmeUrl).0 == config.readmeSha && out.fetch(config.summaryUrl).0 == config.summarySha
  }

  method LockLicenses(out: Outside, config: Config, key: Key, c: Component) returns (files: seq<Artifact>)
    requires |key| == 2
    ensures files == LockedOf(out, config, key, c).files
  {
    hide LicenseUrl, SourceUrl, Fetched;
    var names := SortedNames(c.files);
    files := [];
    for k := 0 to |names|
      invariant |files| == k && forall j | 0 <= j < k ::
        files[j] == Fetched(out, names[j], LicenseUrl(out, config, key, c, names[j]))
    {
      files := files + [Fetched(out, names[k], LicenseUrl(out, config, key, c, names[k]))];
    }
  }

  /** The record lock_toolchain builds. */
  method BuildLock(out: Outside, config: Config, summary: seq<(Key, Component)>) returns (lock: Lock)
    requires forall i | 0 <= i < |summary| :: |summary[i].0| == 2
    ensures IsLockOf(lock, out, config, summary)
  {
    hide LicenseUrl, SourceUrl, Fetched, CountsOf;
    var locked: seq<Locked> := [];
    for i := 0 to |summary|
      invariant |locked| == i && forall j | 0 <= j < i :: locked[j] == LockedOf(out, config, summary[j].0, summary[j].1)
    {
      var (key, c) := summary[i];
      var source := None;
      if c.archive != NOT_SAVED {
        source := Some(Fetched(out, c.archive, SourceUrl(out, config, key, c)));
      }
      var files := LockLicenses(out, config, key, c);
      locked := locked + [Locked(key[0], key[1], c.occurrences, SortedNames(c.licenses), source, c.site, files)];
    }
    lock := Lock(LOCK_SCHEMA, config.toolchain, Fetched(out, "readme", config.readmeUrl),
      Fetched(out, "summary", config.summaryUrl), config.builder, locked, CountsOf(locked));
  }

  ghost predicate IsLockOf(lock: Lock, out: Outside, config: Config, summary: seq<(Key, Component)>)
    requires forall i | 0 <= i < |summary| :: |summary[i].0| == 2
  {
    && lock.schema == LOCK_SCHEMA && lock.toolchain == config.toolchain && lock.builder == config.builder
    && lock.readme == Fetched(out, "readme", config.readmeUrl)
    && lock.summary == Fetched(out, "summary", config.summaryUrl)
    && |lock.components| == |summary|
    && (forall j | 0 <= j < |summary| :: lock.components[j] == LockedOf(out, config, summary[j].0, summary[j].1))
    && lock.counts == CountsOf(lock.components)
  }

  // ----- the validators ------------------------------------------------------------------------------

  predicate ValidArtifact(a: Artifact) { a.url != "" && IsSha(a.sha256) && a.size > 0 }

  /** safe_relative */
  predicate SafeRelative(s: string) {
    s != "" && !IsAbsolute(s) && ".." !in PartsOf(s) && s == if PartsOf(s) == [] then "." else Joined(PartsOf(s))
  }

  predicate ValidComponent(l: Locked, config: Config) {
    && l.name != "" && l.version != ""
    && (l.source.Some? ==> ValidArtifact(l.source.value) && config.sources <= l.source.value.url)
    && (forall i | 0 <= i < |l.files| :: ValidFile(l.files[i], config))
    && (forall i, j | 0 <= i < j < |l.files| :: l.files[i].name != l.files[j].name)
  }

  predicate ValidFile(a: Artifact, config: Config) {
    SafeRelative(a.name) && ValidArtifact(a) && config.licenses <= a.url
  }

  function LockedKey(l: Locked): Key { [l.name, l.version] }

  function LockedKeys(components: seq<Locked>): seq<Key> {
    seq(|components|, i requires 0 <= i < |components| => LockedKey(components[i]))
  }

  /** validate_lock */
  predicate ValidLock(lock: Lock, config: Config) {
    && lock.schema == LOCK_SCHEMA && lock.toolchain == config.toolchain && lock.builder == config.builder
    && ValidArtifact(lock.readme) && lock.readme.url == config.readmeUrl && lock.readme.sha256 == config.readmeSha
    && ValidArtifact(lock.summary) && lock.summary.url == config.summaryUrl && lock.summary.sha256 == config.summarySha
    && lock.components != [] && (forall i | 0 <= i < |lock.components| :: ValidComponent(lock.components[i], config))
    && Increasing(PartsLess, LockedKeys(lock.components))
    && lock.counts == CountsOf(lock.components)
  }

  /** The dictionary from names to URLs of the locked license files; a later entry replaces an
      earlier one of the same name. */
  function UrlsByName(files: seq<Artifact>): map<string, string> {
    if files == [] then map[] else
      var last := files[|files| - 1];
      UrlsByName(files[..|files| - 1])[last.name := last.url]
  }

  function ExpectedUrls(out: Outside, config: Config, key: Key, c: Component): map<string, string>
    requires |key| == 2
  {
    map name | name in c.files :: LicenseUrl(out, config, key, c, name)
  }

  predicate MatchesComponent(l: Locked, out: Outside, config: Config, key: Key, c: Component)
    requires |key| == 2
  {
    && LockedKey(l) == key
    && (if c.archive == NOT_SAVED then l.source == None
        else l.source.Some? && l.source.value.name == c.archive && l.source.value.url == SourceUrl(out, config, key, c))
    && UrlsByName(l.files) == ExpectedUrls(out, config, key, c)
    && l.licenses == SortedNames(c.licenses) && l.site == c.site && l.occurrences == c.occurrences
  }

  /** The dictionary entry of a component; a later one replaces an earlier one of the same key. */
  function LockedAt(components: seq<Locked>, key: Key): Option<Locked> {
    if components == [] then None
    else if LockedKey(components[|components| - 1]) == key then Some(components[|components| - 1])
    else LockedAt(components[..|components| - 1], key)
  }

  /** validate_lock_summary against the merged rows of the summary */
  predicate MatchesSummary(lock: Lock, out: Outside, config: Config, summary: seq<(Key, Component)>)
    requires forall i | 0 <= i < |summary| :: |summary[i].0| == 2
  {
    && (set l | l in lock.components :: LockedKey(l)) == (set entry | entry in summary :: entry.0)
    && forall i | 0 <= i < |summary| ::
      var locked := LockedAt(lock.components, summary[i].0);
      locked.Some? && MatchesComponent(locked.value, out, config, summary[i].0, summary[i].1)
  }

  // ----- the generated lock ------------------------------------------------------------------------

  predicate EndsInTwoSlashes(base: string) {
    |base| >= 2 && base[|base| - 1] == '/' && base[|base| - 2] == '/'
  }

  /** What has to hold of the summary, the base URLs and the downloads. */
  ghost predicate WellFormed(out: Outside, config: Config, summary: seq<(Key, Component)>)
    requires forall i | 0 <= i < |summary| :: |summary[i].0| == 2
  {
    && out.fetch(config.readmeUrl).1 > 0 && out.fetch(config.summaryUrl).1 > 0
    && forall i | 0 <= i < |summary| :: WellFormedComponent(out, config, summary[i].0, summary[i].1)
  }

  predicate WellFormedComponent(out: Outside, config: Config, key: Key, c: Component)
    requires |key| == 2
  {
    && key[0] != "" && key[1] != ""
    && (c.archive != NOT_SAVED ==> out.fetch(SourceUrl(out, config, key, c)).1 > 0 && !EndsInTwoSlashes(config.sources))
    && forall name <- c.files :: WellFormedName(out, config, key, c, name)
  }

  predicate WellFormedName(out: Outside, config: Config, key: Key, c: Component, name: string)
    requires |key| == 2
  {
    SafeRelative(name) && out.fetch(LicenseUrl(out, config, key, c, name)).1 > 0 && !EndsInTwoSlashes(config.licenses)
  }

  lemma {:induction false} StrippedPrefix(base: string)
    ensures |StripSlashes(base)| <= |base| && StripSlashes(base) == base[..|StripSlashes(base)|]
    ensures forall i | |StripSlashes(base)| <= i < |base| :: base[i] == '/'
    ensures StripSlashes(base) != "" ==> StripSlashes(base)[|StripSlashes(base)| - 1] != '/'
  {
    if base != "" && base[|base| - 1] == '/' { StrippedPrefix(base[..|base| - 1]); }
  }

  /** An official URL starts with its base unless the base ends in two slashes. */
  lemma UrlUnderBase(out: Outside, base: string, component: string, relative: string)
    requires IsSane(out) && ('-' in component || component == "buildroot")
    ensures base <= OfficialUrl(out, base, component, relative) <==> !EndsInTwoSlashes(base)
  {
    StrippedPrefix(base);
    var stripped, rest := StripSlashes(base), out.encoded(component) + "/" + out.encoded(relative);
    var n := |stripped|;
    var url := OfficialUrl(out, base, component, relative);
    assert rest != "" && rest[0] != '/';
    assert url == stripped + "/" + rest;
    assert n > 0 ==> stripped[n - 1] == base[n - 1];
    assert EndsInTwoSlashes(base) <==> |base| >= n + 2;
    assert |base| >= n + 2 ==> base[n + 1] == '/' && url[n + 1] == rest[0];
  }

  lemma IdsAreSane(key: Key, c: Component)
    requires |key| == 2
    ensures '-' in ComponentId(key) && ('-' in LicenseComponentId(key, c) || LicenseComponentId(key, c) == "buildroot")
  {
  }

  lemma FetchedIsValid(out: Outside, name: string, url: string)
    requires IsSane(out) && url != ""
    ensures ValidArtifact(Fetched(out, name, url)) <==> out.fetch(url).1 > 0
  {
  }

  lemma LockedIsValid(out: Outside, config: Config, key: Key, c: Component)
    requires IsSane(out) && |key| == 2
    ensures ValidComponent(LockedOf(out, config, key, c), config) <==> WellFormedComponent(out, config, key, c)
    ensures MatchesComponent(LockedOf(out, config, key, c), out, config, key, c)
  {
    hide IsSane, SafeRelative, ValidArtifact, OfficialUrl, SourceUrl, LicenseUrl, EndsInTwoSlashes, ValidFile,
      WellFormedName, UrlsByName, ExpectedUrls;
    SourceIsValid(out, config, key, c);
    FilesAreValid(out, config, key, c);
    FilesMatch(out, config, key, c);
    assert [key[0], key[1]] == key;
  }

  lemma FilesAreValid(out: Outside, config: Config, key: Key, c: Component)
    requires IsSane(out) && |key| == 2
    ensures var files := LockedOf(out, config, key, c).files;
      && ((forall i | 0 <= i < |files| :: ValidFile(files[i], config))
        <==> forall name <- c.files :: WellFormedName(out, config, key, c, name))
      && forall i, j | 0 <= i < j < |files| :: files[i].name != files[j].name
  {
    hide IsSane, SafeRelative, ValidArtifact, LicenseUrl, EndsInTwoSlashes, ValidFile, WellFormedName;
    var files, names := LockedOf(out, config, key, c).files, SortedNames(c.files);
    forall i | 0 <= i < |names|
      ensures files[i].name == names[i]
        && (ValidFile(files[i], config) <==> WellFormedName(out, config, key, c, names[i]))
    {
      FileIsValid(out, config, key, c, names[i]);
    }
    if forall i | 0 <= i < |files| :: ValidFile(files[i], config) {
      forall name <- c.files
        ensures WellFormedName(out, config, key, c, name)
      {
        var i :| 0 <= i < |names| && names[i] == name;
        assert ValidFile(files[i], config);
      }
    }
  }

  lemma FileIsValid(out: Outside, config: Config, key: Key, c: Component, name: string)
    requires IsSane(out) && |key| == 2
    ensures ValidFile(Fetched(out, name, LicenseUrl(out, config, key, c, name)), config)
      <==> WellFormedName(out, config, key, c, name)
  {
    hide IsSane, SafeRelative, ValidArtifact, EndsInTwoSlashes;
    LicenseIsValid(out, config, key, c, name);
  }

  lemma SourceIsValid(out: Outside, config: Config, key: Key, c: Component)
    requires IsSane(out) && |key| == 2
    ensures var url := SourceUrl(out, config, key, c);
      (ValidArtifact(Fetched(out, c.archive, url)) && config.sources <= url)
        <==> (out.fetch(url).1 > 0 && !EndsInTwoSlashes(config.sources))
  {
    hide IsSane, ValidArtifact;
    IdsAreSane(key, c);
    UrlUnderBase(out, config.sources, ComponentId(key), c.archive);
    FetchedIsValid(out, c.archive, SourceUrl(out, config, key, c));
  }

  lemma LicenseIsValid(out: Outside, config: Config, key: Key, c: Component, name: string)
    requires IsSane(out) && |key| == 2
    ensures var url := LicenseUrl(out, config, key, c, name);
      (ValidArtifact(Fetched(out, name, url)) && config.licenses <= url)
        <==> (out.fetch(url).1 > 0 && !EndsInTwoSlashes(config.licenses))
  {
    hide IsSane, ValidArtifact, LicenseComponentId;
    IdsAreSane(key, c);
    UrlUnderBase(out, config.licenses, LicenseComponentId(key, c), name);
    FetchedIsValid(out, name, LicenseUrl(out, config, key, c, name));
  }

  lemma LockedFiles(out: Outside, config: Config, key: Key, c: Component)
    requires |key| == 2
    ensures var files, names := LockedOf(out, config, key, c).files, SortedNames(c.files);
      && |files| == |names|
      && (forall i | 0 <= i < |files| ::
        files[i].name == names[i] && files[i].url == LicenseUrl(out, config, key, c, names[i]))
      && forall i, j | 0 <= i < j < |files| :: files[i].name != files[j].name
  {
    hide LicenseUrl, SortedNames, SourceUrl;
  }

  lemma FilesMatch(out: Outside, config: Config, key: Key, c: Component)
    requires |key| == 2
    ensures UrlsByName(LockedOf(out, config, key, c).files) == ExpectedUrls(out, config, key, c)
  {
    hide LicenseUrl, UrlsByName, LockedOf, SortedNames;
    var files, names := LockedOf(out, config, key, c).files, SortedNames(c.files);
    LockedFiles(out, config, key, c);
    NamesKeyed(files);
    forall name
      ensures name in UrlsByName(files) <==> name in c.files
      ensures name in c.files ==> UrlsByName(files)[name] == LicenseUrl(out, config, key, c, name)
    {
      if name in c.files {
        var i :| 0 <= i < |names| && names[i] == name;
        assert files[i].name == name;
      } else {
        NameNotKeyed(files, name);
      }
    }
  }

  lemma {:induction false} NamesKeyed(files: seq<Artifact>)
    requires forall i, j | 0 <= i < j < |files| :: files[i].name != files[j].name
    ensures forall i | 0 <= i < |files| ::
      files[i].name in UrlsByName(files) && UrlsByName(files)[files[i].name] == files[i].url
  {
    if files != [] { NamesKeyed(files[..|files| - 1]); }
  }

  lemma {:induction false} NameNotKeyed(files: seq<Artifact>, name: string)
    requires forall i | 0 <= i < |files| :: files[i].name != name
    ensures name !in UrlsByName(files)
  {
    if files != [] { NameNotKeyed(files[..|files| - 1], name); }
  }

  lemma {:induction false} LockedIsThere(components: seq<Locked>, i: nat)
    requires i < |components| && forall a, b | 0 <= a < b < |components| ::
      LockedKey(components[a]) != LockedKey(components[b])
    ensures LockedAt(components, LockedKey(components[i])) == Some(components[i])
  {
    if i < |components| - 1 { LockedIsThere(components[..|components| - 1], i); }
  }

  lemma SameKeys(components: seq<Locked>, summary: seq<(Key, Component)>)
    requires |components| == |summary| && forall i | 0 <= i < |summary| :: LockedKey(components[i]) == summary[i].0
    ensures (set l | l in components :: LockedKey(l)) == (set entry | entry in summary :: entry.0)
  {
    assert forall i | 0 <= i < |summary| :: components[i] in components && summary[i] in summary;
  }

  /** The lock generated from an accepted summary always matches it, and passes the other
      validator exactly when names, base URLs and downloads are well formed. */
  lemma GeneratedLockPasses(rows: seq<Row>, summary: seq<(Key, Component)>, out: Outside, config: Config, lock: Lock)
    requires rows != [] && IsSummary(summary, rows) && forall i | 0 <= i < |summary| :: |summary[i].0| == 2
    requires IsSane(out) && IsPinned(out, config) && config.readmeUrl != "" && config.summaryUrl != ""
    requires IsLockOf(lock, out, config, summary)
    ensures ValidLock(lock, config) <==> WellFormed(out, config, summary)
    ensures MatchesSummary(lock, out, config, summary)
  {
    forall i | 0 <= i < |summary|
      ensures ValidComponent(lock.components[i], config)
        <==> WellFormedComponent(out, config, summary[i].0, summary[i].1)
      ensures MatchesComponent(lock.components[i], out, config, summary[i].0, summary[i].1)
    {
      LockedIsValid(out, config, summary[i].0, summary[i].1);
    }
    FetchedIsValid(out, "readme", config.readmeUrl);
    FetchedIsValid(out, "summary", config.summaryUrl);
    hide IsSane, ValidComponent, WellFormedComponent, MatchesComponent, ValidArtifact, Collected, Keys, PartsLess;
    LockedKeysInOrder(rows, summary, out, config, lock);
    SummaryMatches(rows, summary, out, config, lock);
  }

  lemma KeysArePairs(rows: seq<Row>)
    ensures forall key | key in Keys(rows) :: |key| == 2
  {
  }

  /** The components of accepted rows. */
  function SummaryOf(rows: seq<Row>): (summary: seq<(Key, Component)>)
    ensures IsSummary(summary, rows) && forall i | 0 <= i < |summary| :: |summary[i].0| == 2
  {
    hide *;
    var keys := KeysInOrder(rows);
    var summary := seq(|keys|, i requires 0 <= i < |keys| => Entry(rows, keys[i]));
    EntriesAreSummary(rows, summary);
    summary
  }

  function Entry(rows: seq<Row>, key: Key): (Key, Component) {
    (key, if key in Keys(rows) then Collected(rows, key) else Component(0, {}, {}, "", ""))
  }

  lemma EntriesAreSummary(rows: seq<Row>, summary: seq<(Key, Component)>)
    requires |summary| == |KeysInOrder(rows)|
    requires forall i | 0 <= i < |summary| :: summary[i] == Entry(rows, KeysInOrder(rows)[i])
    ensures IsSummary(summary, rows) && forall i | 0 <= i < |summary| :: |summary[i].0| == 2
  {
    hide Collected, Keys, KeysInOrder;
    KeysArePairs(rows);
  }

  /** lock_toolchain: the evidence must have the pinned digests and the summary must be accepted;
      the record is checked by both validators before it is written.  A lock comes out exactly
      when nothing of this refuses, and the check against the summary never does. */
  method LockToolchain(out: Outside, config: Config, columns: set<string>, rows: seq<Row>) returns (lock: Option<Lock>)
    requires IsSane(out)
    ensures lock.Some? <==> (
      && IsPinned(out, config) && columns == COLUMNS && rows != [] && !Conflict(rows)
      && config.readmeUrl != "" && config.summaryUrl != "" && WellFormed(out, config, SummaryOf(rows)))
    ensures lock.Some? ==> (
      && IsLockOf(lock.value, out, config, SummaryOf(rows)) && ValidLock(lock.value, config)
      && MatchesSummary(lock.value, out, config, SummaryOf(rows)))
  {
    hide IsSane, Conflict, IsSummary, WellFormed, IsLockOf, ValidLock, MatchesSummary, Collected, Keys;
    if !IsPinned(out, config) { return None; }
    var summary := MergedSummaryRows(columns, rows);
    if summary == None { return None; }
    OneSummary(rows, summary.value);
    var record := BuildLock(out, config, summary.value);
    if config.readmeUrl != "" && config.summaryUrl != "" {
      GeneratedLockPasses(rows, summary.value, out, config, record);
    } else {
      NoEvidence(out, config, summary.value, record);
    }
    if !ValidLock(record, config) || !MatchesSummary(record, out, config, summary.value) { return None; }
    return Some(record);
  }

  lemma OneSummary(rows: seq<Row>, summary: seq<(Key, Component)>)
    requires IsSummary(summary, rows)
    ensures summary == SummaryOf(rows)
  {
    hide Collected, KeysInOrder, Keys;
  }

  lemma NoEvidence(out: Outside, config: Config, summary: seq<(Key, Component)>, lock: Lock)
    requires forall i | 0 <= i < |summary| :: |summary[i].0| == 2
    requires IsLockOf(lock, out, config, summary) && (config.readmeUrl == "" || config.summaryUrl == "")
    ensures !ValidLock(lock, config)
  {
  }

  lemma SummaryMatches(rows: seq<Row>, summary: seq<(Key, Component)>, out: Outside, config: Config, lock: Lock)
    requires IsSummary(summary, rows) && forall i | 0 <= i < |summary| :: |summary[i].0| == 2
    requires |lock.components| == |summary| && LockedKeys(lock.components) == KeysInOrder(rows)
    requires forall i | 0 <= i < |summary| ::
      MatchesComponent(lock.components[i], out, config, summary[i].0, summary[i].1)
    ensures MatchesSummary(lock, out, config, summary)
  {
    hide Collected, Keys, PartsLess, Increasing, MatchesComponent, LockedAt;
    var components := lock.components;
    assert forall i | 0 <= i < |summary| :: LockedKey(components[i]) == LockedKeys(components)[i] == summary[i].0;
    SameKeys(components, summary);
    forall i | 0 <= i < |summary|
      ensures LockedAt(components, summary[i].0) == Some(components[i])
    {
      LockedIsThere(components, i);
    }
  }

  lemma LockedKeysInOrder(rows: seq<Row>, summary: seq<(Key, Component)>, out: Outside, config: Config, lock: Lock)
    requires rows != [] && IsSummary(summary, rows) && forall i | 0 <= i < |summary| :: |summary[i].0| == 2
    requires IsLockOf(lock, out, config, summary)
    ensures LockedKeys(lock.components) == KeysInOrder(rows)
      && Increasing(PartsLess, LockedKeys(lock.components)) && lock.components != []
  {
    hide PartsLess, Increasing, Keys, KeysInOrder, LockedOf, Collected;
    forall i | 0 <= i < |summary|
      ensures LockedKey(lock.components[i]) == summary[i].0
    {
      KeyIsLocked(out, config, summary[i].0, summary[i].1);
    }
    FirstKey(rows);
    AscendingKeys(rows);
  }

  lemma KeyIsLocked(out: Outside, config: Config, key: Key, c: Component)
    requires |key| == 2
    ensures LockedKey(LockedOf(out, config, key, c)) == key
  {
    assert [key[0], key[1]] == key;
  }

  lemma AscendingKeys(rows: seq<Row>)
    ensures Increasing(PartsLess, KeysInOrder(rows)) && (rows != [] ==> KeysInOrder(rows) != [])
  {
    if rows != [] {
      FirstKey(rows);
      assert KeyOf(rows[0]) in KeysInOrder(rows);
    }
  }

  lemma FirstKey(rows: seq<Row>)
    requires rows != []
    ensures KeyOf(rows[0]) in Keys(rows)
  {
  }

  /** The row count of the lock is the number of rows. */
  lemma {:induction false} RowsCounted(components: seq<Locked>, rows: seq<Row>, keys: seq<Key>)
    requires |components| == |keys| && forall i | 0 <= i < |keys| ::
      components[i].occurrences == Occurrences(rows, keys[i])
    ensures CountsOf(components).rows == Total(rows, keys) && CountsOf(components).components == |keys|
  {
    if keys != [] { RowsCounted(components[..|components| - 1], rows, keys[..|keys| - 1]); }
  }

  lemma LockCountsRows(rows: seq<Row>, summary: seq<(Key, Component)>, out: Outside, config: Config, lock: Lock)
    requires IsSummary(summary, rows) && forall i | 0 <= i < |summary| :: |summary[i].0| == 2
    requires IsLockOf(lock, out, config, summary)
    ensures lock.counts.rows == |rows| && lock.counts.components == |Keys(rows)|
  {
    hide Sorted, PartsLess;
    var keys := KeysInOrder(rows);
    RowsCounted(lock.components, rows, keys);
    OccurrencesAddUp(rows, keys);
    assert (set key | key in keys) == Keys(rows);
    DistinctCount(keys);
  }
}
