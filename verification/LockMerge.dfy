/** tools/buildroot_compliance_bundle.py: merging the rows of a toolchain summary into components. */
module LockMerge {
  import opened Options
  import opened Ordering

  /** A row of the summary; `files` are the words of its license-file column. */
  datatype Row = Row(package: string, version: string, license: string, files: seq<string>,
    archive: string, site: string)

  /** Package and version, ordered as a pair of strings. */
  type Key = seq<string>

  function KeyOf(row: Row): Key { [row.package, row.version] }

  datatype Component = Component(occurrences: nat, licenses: set<string>, files: set<string>,
    archive: string, site: string)

  // ----- what a component collects ---------------------------------------------------------------

  function Keys(rows: seq<Row>): set<Key> { set row | row in rows :: KeyOf(row) }

  function Occurrences(rows: seq<Row>, key: Key): nat {
    if rows == [] then 0 else
      Occurrences(rows[..|rows| - 1], key) + if KeyOf(rows[|rows| - 1]) == key then 1 else 0
  }

  function Licenses(rows: seq<Row>, key: Key): set<string> {
    set row | row in rows && KeyOf(row) == key :: row.license
  }

  function FileNames(rows: seq<Row>, key: Key): set<string> {
    set row, name | row in rows && KeyOf(row) == key && name in row.files :: name
  }

  /** The first row of a component. */
  function First(rows: seq<Row>, key: Key): (row: Row)
    requires key in Keys(rows)
    ensures row in rows && KeyOf(row) == key
  {
    if KeyOf(rows[0]) == key then rows[0] else
      assert rows == [rows[0]] + rows[1..];
      First(rows[1..], key)
  }

  function Collected(rows: seq<Row>, key: Key): Component
    requires key in Keys(rows)
  {
    Component(Occurrences(rows, key), Licenses(rows, key), FileNames(rows, key),
      First(rows, key).archive, First(rows, key).site)
  }

  /** Two rows of one component name different archives. */
  ghost predicate Conflict(rows: seq<Row>) {
    exists a, b :: a in rows && b in rows && KeyOf(a) == KeyOf(b) && a.archive != b.archive
  }

  lemma {:induction false} FirstStays(rows: seq<Row>, row: Row, key: Key)
    requires key in Keys(rows)
    ensures key in Keys(rows + [row]) && First(rows + [row], key) == First(rows, key)
  {
    var all := rows + [row];
    assert all[0] == rows[0] && forall r | r in rows :: r in all;
    if KeyOf(rows[0]) != key {
      assert all[1..] == rows[1..] + [row];
      assert rows == [rows[0]] + rows[1..];
      FirstStays(rows[1..], row, key);
    }
  }

  lemma {:induction false} FirstIsNew(rows: seq<Row>, row: Row)
    requires KeyOf(row) !in Keys(rows)
    ensures KeyOf(row) in Keys(rows + [row]) && First(rows + [row], KeyOf(row)) == row
  {
  }

  /** What a row adds to its component, and to no other. */
  lemma CollectedMore(rows: seq<Row>, row: Row, key: Key)
    requires key in Keys(rows + [row])
    ensures key != KeyOf(row) ==> key in Keys(rows) && Collected(rows + [row], key) == Collected(rows, key)
    ensures key == KeyOf(row) && key !in Keys(rows) ==> (
      Collected(rows + [row], key)
        == Component(1, {row.license}, (set name | name in row.files), row.archive, row.site))
    ensures key == KeyOf(row) && key in Keys(rows)
      ==> (var c := Collected(rows, key);
        Collected(rows + [row], key)
          == c.(occurrences := c.occurrences + 1, licenses := c.licenses + {row.license},
            files := c.files + (set name | name in row.files)))
  {
    var all := rows + [row];
    assert all[..|all| - 1] == rows;
    assert forall r :: r in all <==> r in rows || r == row;
    if key in Keys(rows) {
      FirstStays(rows, row, key);
    } else {
      assert key == KeyOf(row);
      FirstIsNew(rows, row);
      NoneYet(rows, key);
    }
  }

  lemma {:induction false} NoneYet(rows: seq<Row>, key: Key)
    requires key !in Keys(rows)
    ensures Occurrences(rows, key) == 0
  {
    if rows != [] {
      assert rows[|rows| - 1] in rows && forall r | r in rows[..|rows| - 1] :: r in rows;
      NoneYet(rows[..|rows| - 1], key);
    }
  }

  // ----- the merge -------------------------------------------------------------------------------------

  /** `merged` holds the components of the rows. */
  ghost predicate Merges(merged: map<Key, Component>, rows: seq<Row>) {
    merged.Keys == Keys(rows) && forall key <- merged :: merged[key] == Collected(rows, key)
  }

  /** One round of the loop; None is a conflict of source archives. */
  method MergeRow(merged: map<Key, Component>, ghost rows: seq<Row>, row: Row)
    returns (after: Option<map<Key, Component>>)
    requires Merges(merged, rows) && !Conflict(rows)
    ensures after == None <==> Conflict(rows + [row])
    ensures after.Some? ==> Merges(after.value, rows + [row])
  {
    hide Collected, Keys, Conflict;
    var key := KeyOf(row);
    RowConflicts(merged, rows, row);
    var current := if key in merged then merged[key] else Component(0, {}, {}, row.archive, row.site);
    if current.archive != row.archive { return None; }
    current := current.(
      occurrences := current.occurrences + 1,
      licenses := current.licenses + {row.license},
      files := current.files + (set name | name in row.files));
    KeysMore(rows, row);
    CollectedAll(rows, row);
    return Some(merged[key := current]);
  }

  lemma KeysMore(rows: seq<Row>, row: Row)
    ensures Keys(rows + [row]) == Keys(rows) + {KeyOf(row)}
  {
  }

  ghost predicate IsMore(rows: seq<Row>, row: Row, key: Key)
    requires key in Keys(rows + [row])
  {
    if key != KeyOf(row) then key in Keys(rows) && Collected(rows + [row], key) == Collected(rows, key)
    else if key !in Keys(rows) then
      Collected(rows + [row], key)
        == Component(1, {} + {row.license}, {} + (set name | name in row.files), row.archive, row.site)
    else
      var c := Collected(rows, key);
      Collected(rows + [row], key)
        == c.(occurrences := c.occurrences + 1, licenses := c.licenses + {row.license},
          files := c.files + (set name | name in row.files))
  }

  lemma CollectedAll(rows: seq<Row>, row: Row)
    ensures forall key | key in Keys(rows + [row]) :: IsMore(rows, row, key)
  {
    hide Collected, Keys;
    forall key | key in Keys(rows + [row])
      ensures IsMore(rows, row, key)
    {
      CollectedMore(rows, row, key);
      assert {} + {row.license} == {row.license};
    }
  }

  lemma RowConflicts(merged: map<Key, Component>, rows: seq<Row>, row: Row)
    requires Merges(merged, rows) && !Conflict(rows)
    ensures Conflict(rows + [row]) <==> KeyOf(row) in merged && merged[KeyOf(row)].archive != row.archive
  {
  }

  /** The components in the order of their keys. */
  ghost predicate IsSummary(summary: seq<(Key, Component)>, rows: seq<Row>) {
    && |summary| == |KeysInOrder(rows)|
    && forall i | 0 <= i < |summary| :: (
      && summary[i].0 == KeysInOrder(rows)[i] && summary[i].0 in Keys(rows)
      && summary[i].1 == Collected(rows, summary[i].0))
  }

  function KeysInOrder(rows: seq<Row>): (keys: seq<Key>)
    ensures (forall key :: key in keys <==> key in Keys(rows)) && Increasing(PartsLess, keys)
    ensures forall i, j | 0 <= i < j < |keys| :: keys[i] != keys[j]
  {
    PartsOrder();
    SortedIsSet(PartsLess, Keys(rows));
    Sorted(PartsLess, Keys(rows))
  }

  const COLUMNS: set<string> := {
    "PACKAGE", "VERSION", "LICENSE", "LICENSE FILES", "SOURCE ARCHIVE", "SOURCE SITE", "DEPENDENCIES WITH LICENSES"}

  /** merged_summary_rows, after the CSV with its column names is read; None is a refusal. */
  method MergedSummaryRows(columns: set<string>, rows: seq<Row>) returns (summary: Option<seq<(Key, Component)>>)
    ensures summary == None <==> rows == [] || columns != COLUMNS || Conflict(rows)
    ensures summary.Some? ==> IsSummary(summary.value, rows)
  {
    hide Collected, Keys, Conflict, Increasing, PartsLess;
    if rows == [] || columns != COLUMNS { return None; }
    var merged: map<Key, Component> := map[];
    NothingMerged();
    for i := 0 to |rows|
      invariant Merges(merged, rows[..i]) && !Conflict(rows[..i])
    {
      assert rows[..i + 1] == rows[..i] + [rows[i]];
      var after := MergeRow(merged, rows[..i], rows[i]);
      if after == None {
        ConflictStays(rows, i + 1);
        return None;
      }
      merged := after.value;
    }
    assert rows[..|rows|] == rows;
    return Some(InOrder(merged, rows));
  }

  /** [merged[key] for key in sorted(merged)] */
  function InOrder(merged: map<Key, Component>, rows: seq<Row>): (summary: seq<(Key, Component)>)
    requires Merges(merged, rows)
    ensures IsSummary(summary, rows)
  {
    hide Collected, Keys, Increasing, PartsLess;
    var keys := KeysInOrder(rows);
    seq(|keys|, i requires 0 <= i < |keys| => (keys[i], merged[keys[i]]))
  }

  lemma NothingMerged()
    ensures Merges(map[], []) && !Conflict([])
  {
  }

  lemma ConflictStays(rows: seq<Row>, n: nat)
    requires n <= |rows| && Conflict(rows[..n])
    ensures Conflict(rows)
  {
  }

  // ----- what the merge keeps ------------------------------------------------------------------------

  function Total(rows: seq<Row>, keys: seq<Key>): nat {
    if keys == [] then 0 else Total(rows, keys[..|keys| - 1]) + Occurrences(rows, keys[|keys| - 1])
  }

  lemma {:induction false} TotalMore(rows: seq<Row>, row: Row, keys: seq<Key>)
    requires Distinct(keys)
    ensures Total(rows + [row], keys) == Total(rows, keys) + if KeyOf(row) in keys then 1 else 0
  {
    if keys != [] {
      var front, last := keys[..|keys| - 1], keys[|keys| - 1];
      assert (rows + [row])[..|rows|] == rows;
      assert KeyOf(row) in keys <==> KeyOf(row) in front || KeyOf(row) == last;
      TotalMore(rows, row, front);
    }
  }

  /** The occurrences of all components add up to the number of rows. */
  lemma {:induction false} OccurrencesAddUp(rows: seq<Row>, keys: seq<Key>)
    requires Distinct(keys) && forall row | row in rows :: KeyOf(row) in keys
    ensures Total(rows, keys) == |rows|
  {
    if rows == [] {
      NoOccurrences(keys);
    } else {
      var front, last := rows[..|rows| - 1], rows[|rows| - 1];
      assert rows == front + [last];
      assert forall row | row in front :: row in rows;
      OccurrencesAddUp(front, keys);
      TotalMore(front, last, keys);
    }
  }

  lemma {:induction false} NoOccurrences(keys: seq<Key>)
    ensures Total([], keys) == 0
  {
    if keys != [] { NoOccurrences(keys[..|keys| - 1]); }
  }

  lemma {:induction false} OccurrencesOfParts(a: seq<Row>, b: seq<Row>, key: Key)
    ensures Occurrences(a + b, key) == Occurrences(a, key) + Occurrences(b, key)
  {
    if b == [] {
      assert a + b == a;
    } else {
      assert (a + b)[..|a + b| - 1] == a + b[..|b| - 1];
      OccurrencesOfParts(a, b[..|b| - 1], key);
    }
  }

  lemma WithoutOne(front: seq<Row>, last: Row, other: seq<Row>) returns (a: seq<Row>, b: seq<Row>)
    requires multiset(front + [last]) == multiset(other)
    ensures other == a + [last] + b && multiset(front) == multiset(a + b) && |a + b| == |front|
  {
    assert last in multiset(other);
    var i :| 0 <= i < |other| && other[i] == last;
    a, b := other[..i], other[i + 1..];
    assert other == a + [last] + b;
    assert multiset(other) == multiset(a) + multiset{last} + multiset(b);
    assert multiset(front) == multiset(other) - multiset{last} == multiset(a) + multiset(b) == multiset(a + b);
    assert |front| == |multiset(front)| && |a + b| == |multiset(a + b)|;
  }

  lemma {:induction false} OccurrencesOfRowsInAnyOrder(rows: seq<Row>, other: seq<Row>, key: Key)
    requires multiset(rows) == multiset(other)
    ensures Occurrences(rows, key) == Occurrences(other, key)
  {
    if rows == [] {
      assert |other| == |multiset(other)| == 0;
    } else {
      var front, last := rows[..|rows| - 1], rows[|rows| - 1];
      assert rows == front + [last];
      var a, b := WithoutOne(front, last, other);
      OccurrencesOfRowsInAnyOrder(front, a + b, key);
      OccurrencesOfParts(a, b, key);
      OccurrencesOfParts(a + [last], b, key);
      OccurrencesOfParts(a, [last], key);
      assert [last][..0] == [];
    }
  }

  /** The order of the rows changes nothing but the source sites: the same summaries are
      refused, and the components have the same keys, counts, licenses, files and archives. */
  lemma RowOrderDoesNotMatter(rows: seq<Row>, other: seq<Row>)
    requires multiset(rows) == multiset(other)
    ensures Conflict(rows) <==> Conflict(other)
    ensures KeysInOrder(rows) == KeysInOrder(other) && Keys(rows) == Keys(other)
    ensures !Conflict(rows) ==> forall key | key in Keys(rows) ::
      Collected(rows, key) == Collected(other, key).(site := First(rows, key).site)
  {
    assert forall row :: row in rows <==> row in multiset(rows);
    assert forall row :: row in other <==> row in multiset(other);
    assert Keys(rows) == Keys(other);
    hide First;
    if !Conflict(rows) {
      forall key | key in Keys(rows)
        ensures Collected(rows, key) == Collected(other, key).(site := First(rows, key).site)
      {
        OccurrencesOfRowsInAnyOrder(rows, other, key);
        assert First(other, key) in rows;
        assert Licenses(rows, key) == Licenses(other, key);
        assert FileNames(rows, key) == FileNames(other, key);
      }
    }
  }

  /** The site is the one thing that depends on the order. */
  lemma SiteIsOfFirstRow(a: Row, b: Row)
    requires KeyOf(a) == KeyOf(b) && a.site != b.site
    ensures Collected([a, b], KeyOf(a)).site != Collected([b, a], KeyOf(a)).site && multiset([a, b]) == multiset([b, a])
  {
  }
}
