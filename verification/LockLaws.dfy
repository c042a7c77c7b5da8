/** What the two validators of the toolchain lock say of any lock, however it came about: one that
    passes both is the record of its summary. */
module LockLaws {
  import opened Options
  import opened Ordering
  import opened PosixPaths
  import opened LockMerge
  import opened LockRecord

  // ----- names and addresses --------------------------------------------------------------------------

  const HEXADECIMAL := "0123456789abcdef"

  ghost predicate IsDigest(s: string) {
    |s| == 64 && forall i | 0 <= i < |s| :: s[i] in HEXADECIMAL
  }

  lemma DigestsAre(s: string)
    ensures IsSha(s) <==> IsDigest(s)
  {
    hide HEXADECIMAL;
    forall c: char
      ensures c in HEXADECIMAL <==> '0' <= c <= '9' || 'a' <= c <= 'f'
    {
      Hexadecimal(c);
    }
    assert forall i | 0 <= i < |s| :: s[i] in s;
  }

  lemma Hexadecimal(c: char)
    ensures c in HEXADECIMAL <==> '0' <= c <= '9' || 'a' <= c <= 'f'
  {
    assert HEXADECIMAL == "0123456789" + "abcdef";
    assert c in "0123456789" <==> '0' <= c <= '9';
    assert c in "abcdef" <==> 'a' <= c <= 'f';
  }

  /** The relative paths written in the normal way, without "..". */
  lemma SafeRelativeMeans(s: string)
    ensures SafeRelative(s) <==> s == "." || exists parts :: IsSpelledOut(s, parts)
  {
    if SafeRelative(s) && PartsOf(s) != [] {
      assert IsSpelledOut(s, PartsOf(s));
    }
    LastPart(".");
    if parts :| IsSpelledOut(s, parts) {
      JoinedEnds(parts);
      PartsOfJoined(parts);
    }
  }

  ghost predicate IsSpelledOut(s: string, parts: Parts) {
    s == Joined(parts) && parts != [] && forall part | part in parts :: part !in {"", ".", ".."} && '/' !in part
  }

  /** The base without its last slashes, the encoded component and the encoded name. */
  lemma AddressIs(out: Outside, base: string, slashes: string, component: string, relative: string)
    requires AllSlashes(slashes) && (base == "" || base[|base| - 1] != '/')
    ensures OfficialUrl(out, base + slashes, component, relative)
      == base + "/" + out.encoded(component) + "/" + out.encoded(relative)
  {
    SlashesStripped(base, slashes);
  }

  /** Sources lie under name and version; license files too, but those of a buildroot that was not
      saved lie under its name alone. */
  lemma AddressesAre(out: Outside, config: Config, name: string, version: string, c: Component, file: string)
    ensures SourceUrl(out, config, [name, version], c)
      == OfficialUrl(out, config.sources, name + "-" + version, c.archive)
    ensures LicenseUrl(out, config, [name, version], c, file) == OfficialUrl(out, config.licenses,
      if name == "buildroot" && c.archive == "not saved" then "buildroot" else name + "-" + version, file)
  {
  }

  /** The summary has these seven columns, no more and no fewer. */
  lemma ColumnsAre(column: string)
    ensures column in COLUMNS <==> (
      || column == "PACKAGE" || column == "VERSION" || column == "SOURCE ARCHIVE" || column == "SOURCE SITE"
      || column == "LICENSE" || column == "LICENSE FILES" || column == "DEPENDENCIES WITH LICENSES")
  {
  }

  // ----- the counts -----------------------------------------------------------------------------------

  function Sources(components: seq<Locked>): set<nat> {
    set i | 0 <= i < |components| && components[i].source.Some?
  }

  function AllFiles(components: seq<Locked>): seq<Artifact> {
    if components == [] then [] else components[0].files + AllFiles(components[1..])
  }

  /** Sources and license files are counted one by one, stored objects by digest. */
  lemma {:induction false} CountsMean(components: seq<Locked>)
    ensures var counts := CountsOf(components);
      && counts.components == |components| && counts.sources == |Sources(components)|
      && counts.files == |AllFiles(components)|
      && counts.objects == |set l, a | l in components && a in Artifacts(l) :: a.sha256|
  {
    hide Artifacts, CountsOf, Sources, AllFiles;
    CountsStep(components);
    if components == [] {
      NothingCounted(components);
    } else {
      var n := |components| - 1;
      var front, last := components[..n], components[n];
      assert components == front + [last];
      CountsMean(front);
      SourcesTogether(front, last);
      FilesTogether(front, last);
    }
  }

  lemma NothingCounted(components: seq<Locked>)
    requires components == []
    ensures Sources(components) == {} && AllFiles(components) == []
    ensures (set l, a | l in components && a in Artifacts(l) :: a.sha256) == {}
  {
  }

  lemma SourcesTogether(front: seq<Locked>, last: Locked)
    ensures |Sources(front + [last])| == |Sources(front)| + if last.source.Some? then 1 else 0
  {
    var n := |front|;
    assert Sources(front + [last]) == Sources(front) + if last.source.Some? then {n} else {};
  }

  lemma CountsStep(components: seq<Locked>)
    ensures components == [] ==> CountsOf(components) == Counts(0, 0, 0, 0, 0)
    ensures components != [] ==> (
      var n := |components| - 1;
      var c, last, counts := CountsOf(components[..n]), components[n], CountsOf(components);
      && counts.components == c.components + 1 && counts.files == c.files + |last.files|
      && counts.sources == c.sources + (if last.source.Some? then 1 else 0)
      && counts.objects == |set l, a | l in components && a in Artifacts(l) :: a.sha256|)
  {
    hide Artifacts;
  }

  lemma {:induction false} FilesTogether(front: seq<Locked>, last: Locked)
    ensures AllFiles(front + [last]) == AllFiles(front) + last.files
  {
    if front == [] {
      assert [last][1..] == [] && front + [last] == [last];
    } else {
      assert (front + [last])[1..] == front[1..] + [last];
      FilesTogether(front[1..], last);
    }
  }

  /** The rows of the summary are those the components stand for. */
  lemma {:induction false} RowsAddUp(a: seq<Locked>, b: seq<Locked>, l: Locked)
    ensures CountsOf(a + b).rows == CountsOf(a).rows + CountsOf(b).rows && CountsOf([l]).rows == l.occurrences
  {
    if b == [] {
      assert a + b == a;
    } else {
      var n := |b| - 1;
      RowsAddUp(a, b[..n], l);
      assert (a + b)[..|a + b| - 1] == a + b[..n];
    }
  }

  // ----- what passing the validators means ------------------------------------------------------------

  /** An address, a digest and a size. */
  ghost predicate IsEvidence(a: Artifact) {
    a.url != "" && IsDigest(a.sha256) && a.size > 0
  }

  /** The record of one component of the summary. */
  ghost predicate IsRecord(l: Locked, out: Outside, config: Config, key: Key, c: Component)
    requires |key| == 2
  {
    && l.name == key[0] != "" && l.version == key[1] != "" && l.occurrences == c.occurrences && l.site == c.site
    && Increasing(StringLess, l.licenses) && (forall name :: name in l.licenses <==> name in c.licenses)
    && (if c.archive == "not saved" then l.source == None else l.source.Some? && IsRecordOf(l.source.value,
          c.archive, SourceUrl(out, config, key, c), config.sources))
    && (forall name :: name in c.files <==> exists i :: 0 <= i < |l.files| && l.files[i].name == name)
    && (forall i | 0 <= i < |l.files| :: SafeRelative(l.files[i].name) && IsRecordOf(l.files[i],
          l.files[i].name, LicenseUrl(out, config, key, c, l.files[i].name), config.licenses))
    && forall i, j | 0 <= i < j < |l.files| :: l.files[i].name != l.files[j].name
  }

  /** The evidence with this name at this address, under this base. */
  ghost predicate IsRecordOf(a: Artifact, name: string, url: string, base: string) {
    a.name == name && a.url == url && base <= url && IsEvidence(a)
  }

  /** A lock that passes both validators has the pinned evidence, and of every component of the
      summary exactly one record, in the order of their keys, with the counts to match. */
  lemma ValidatedIsRecord(lock: Lock, out: Outside, config: Config, rows: seq<Row>, summary: seq<(Key, Component)>)
    requires IsSummary(summary, rows) && forall i | 0 <= i < |summary| :: |summary[i].0| == 2
    requires ValidLock(lock, config) && MatchesSummary(lock, out, config, summary)
    ensures lock.schema == "hidloom.bootlin-toolchain-components.v1"
    ensures lock.toolchain == config.toolchain && lock.builder == config.builder
    ensures IsEvidence(lock.readme) && lock.readme.url == config.readmeUrl && lock.readme.sha256 == config.readmeSha
    ensures IsEvidence(lock.summary) && lock.summary.url == config.summaryUrl
      && lock.summary.sha256 == config.summarySha
    ensures summary != [] && |lock.components| == |summary|
    ensures forall i | 0 <= i < |summary| ::
      IsRecord(lock.components[i], out, config, summary[i].0, summary[i].1)
    ensures lock.counts == CountsOf(lock.components)
  {
    DigestsAre(lock.readme.sha256);
    DigestsAre(lock.summary.sha256);
    ComponentsInOrder(lock, out, config, rows, summary);
    hide CountsOf, PartsLess, IsSha, IsDigest, MatchesComponent, ValidComponent, IsRecord, KeysInOrder, Collected, Keys,
      LockedKeys;
    forall i | 0 <= i < |summary|
      ensures IsRecord(lock.components[i], out, config, summary[i].0, summary[i].1)
    {
      ComponentIsRecord(lock.components[i], out, config, summary[i].0, summary[i].1);
    }
  }

  lemma ComponentsInOrder(lock: Lock, out: Outside, config: Config, rows: seq<Row>, summary: seq<(Key, Component)>)
    requires IsSummary(summary, rows) && forall i | 0 <= i < |summary| :: |summary[i].0| == 2
    requires ValidLock(lock, config) && MatchesSummary(lock, out, config, summary)
    ensures |lock.components| == |summary| && forall i | 0 <= i < |summary| ::
      MatchesComponent(lock.components[i], out, config, summary[i].0, summary[i].1)
  {
    hide CountsOf, PartsLess, MatchesComponent, ValidComponent, Collected, Keys, ValidArtifact, LockedAt;
    var keys, locked := KeysInOrder(rows), LockedKeys(lock.components);
    SameKeySets(lock, out, config, rows, summary);
    PartsOrder();
    IncreasingUnique(PartsLess, locked, keys);
    forall i | 0 <= i < |summary|
      ensures MatchesComponent(lock.components[i], out, config, summary[i].0, summary[i].1)
    {
      assert LockedKey(lock.components[i]) == locked[i] == keys[i] == summary[i].0;
      KeysDiffer(lock.components);
      LockedIsThere(lock.components, i);
    }
  }

  lemma SameKeySets(lock: Lock, out: Outside, config: Config, rows: seq<Row>, summary: seq<(Key, Component)>)
    requires IsSummary(summary, rows) && forall i | 0 <= i < |summary| :: |summary[i].0| == 2
    requires MatchesSummary(lock, out, config, summary)
    ensures forall key :: key in LockedKeys(lock.components) <==> key in KeysInOrder(rows)
  {
    hide MatchesComponent, Collected, Keys, KeysInOrder, LockedAt;
    var keys, locked := KeysInOrder(rows), LockedKeys(lock.components);
    forall key
      ensures key in locked <==> key in keys
    {
      var ours := set l | l in lock.components :: LockedKey(l);
      var theirs := set entry | entry in summary :: entry.0;
      assert key in locked <==> key in ours by {
        if key in locked {
          var i :| 0 <= i < |locked| && locked[i] == key;
          assert lock.components[i] in lock.components;
        }
        if key in ours {
          var i :| 0 <= i < |lock.components| && LockedKey(lock.components[i]) == key;
          assert locked[i] == key;
        }
      }
      assert key in keys <==> key in theirs by {
        if key in keys {
          var i :| 0 <= i < |keys| && keys[i] == key;
          assert summary[i] in summary;
        }
      }
    }
  }

  lemma KeysDiffer(components: seq<Locked>)
    requires Increasing(PartsLess, LockedKeys(components))
    ensures forall a, b | 0 <= a < b < |components| :: LockedKey(components[a]) != LockedKey(components[b])
  {
    hide PartsLess;
    PartsOrder();
    var locked := LockedKeys(components);
    forall a, b | 0 <= a < b < |components|
      ensures LockedKey(components[a]) != LockedKey(components[b])
    {
      assert PartsLess(locked[a], locked[b]);
    }
  }

  lemma ComponentIsRecord(l: Locked, out: Outside, config: Config, key: Key, c: Component)
    requires |key| == 2 && ValidComponent(l, config) && MatchesComponent(l, out, config, key, c)
    ensures IsRecord(l, out, config, key, c)
  {
    hide SourceUrl, LicenseUrl, UrlsByName, SafeRelative, IsSha, IsDigest, StringLess;
    if l.source.Some? {
      DigestsAre(l.source.value.sha256);
    }
    assert l.name == key[0] && l.version == key[1];
    NamesKeyed(l.files);
    forall name
      ensures name in c.files <==> exists i :: 0 <= i < |l.files| && l.files[i].name == name
    {
      assert name in c.files <==> name in UrlsByName(l.files);
      if forall i | 0 <= i < |l.files| :: l.files[i].name != name {
        NameNotKeyed(l.files, name);
      }
    }
    forall i | 0 <= i < |l.files|
      ensures SafeRelative(l.files[i].name) && IsRecordOf(l.files[i], l.files[i].name,
        LicenseUrl(out, config, key, c, l.files[i].name), config.licenses)
    {
      assert ValidFile(l.files[i], config);
      DigestsAre(l.files[i].sha256);
    }
  }
}
