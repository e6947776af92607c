/** The single pass over the tab listing: it collects the class ids of the
    type-4 entries and seeds the course list with the courses embedded in
    the type-3 and type-4 entries. */
module TabListing {
  import opened Payload

  predicate NamesClass(e: TabEntry)
  {
    e.entryType == 4
  }

  predicate CarriesCourses(e: TabEntry)
  {
    e.entryType == 3 || e.entryType == 4
  }

  /** The class ids of the type-4 entries, in listing order. */
  function ClassIds(entries: seq<TabEntry>): seq<int>
  {
    if entries == [] then []
    else
      var last := entries[|entries| - 1];
      ClassIds(entries[..|entries| - 1]) + (if NamesClass(last) then [last.classId] else [])
  }

  /** The courses the tab listing seeds: every embedded course of every
      type-3 or type-4 entry, in listing order and then in course order. */
  function Seeded(entries: seq<TabEntry>): seq<Course>
  {
    if entries == [] then []
    else
      var last := entries[|entries| - 1];
      Seeded(entries[..|entries| - 1]) + (if CarriesCourses(last) then last.courses else [])
  }

  /** The number of type-4 entries. */
  function ClassEntryCount(entries: seq<TabEntry>): nat
  {
    if entries == [] then 0
    else ClassEntryCount(entries[..|entries| - 1]) + (if NamesClass(entries[|entries| - 1]) then 1 else 0)
  }

  /** Listing one run of entries after another lists the class ids of the
      first run, then those of the second. */
  lemma {:induction false} ClassIdsAppend(a: seq<TabEntry>, b: seq<TabEntry>)
    ensures ClassIds(a + b) == ClassIds(a) + ClassIds(b)
    decreases |b|
  {
    if b != [] {
      var b' := b[..|b| - 1];
      assert (a + b)[..|a + b| - 1] == a + b';
      ClassIdsAppend(a, b');
    } else {
      assert a + b == a;
    }
  }

  /** Listing one run of entries after another seeds the courses of the
      first run, then those of the second. */
  lemma {:induction false} SeededAppend(a: seq<TabEntry>, b: seq<TabEntry>)
    ensures Seeded(a + b) == Seeded(a) + Seeded(b)
    decreases |b|
  {
    if b != [] {
      var b' := b[..|b| - 1];
      assert (a + b)[..|a + b| - 1] == a + b';
      SeededAppend(a, b');
    } else {
      assert a + b == a;
    }
  }

  lemma {:induction false} ClassEntryCountAppend(a: seq<TabEntry>, b: seq<TabEntry>)
    ensures ClassEntryCount(a + b) == ClassEntryCount(a) + ClassEntryCount(b)
    decreases |b|
  {
    if b != [] {
      var b' := b[..|b| - 1];
      assert (a + b)[..|a + b| - 1] == a + b';
      ClassEntryCountAppend(a, b');
    } else {
      assert a + b == a;
    }
  }

  /** One class id per type-4 entry. */
  lemma {:induction false} ClassIdsCount(entries: seq<TabEntry>)
    ensures |ClassIds(entries)| == ClassEntryCount(entries)
  {
    if entries != [] {
      ClassIdsCount(entries[..|entries| - 1]);
    }
  }

  /** The type-4 entry at index `i` contributes its class id at position
      "number of type-4 entries before it". */
  lemma ClassIdOfEntry(entries: seq<TabEntry>, i: nat)
    requires i < |entries| && NamesClass(entries[i])
    ensures var k := ClassEntryCount(entries[..i]);
      k < |ClassIds(entries)| && ClassIds(entries)[k] == entries[i].classId
  {
    assert entries == entries[..i] + [entries[i]] + entries[i + 1..];
    ClassIdsAppend(entries[..i] + [entries[i]], entries[i + 1..]);
    ClassIdsAppend(entries[..i], [entries[i]]);
    assert ClassIds([entries[i]]) == [entries[i].classId] by {
      assert [entries[i]][..0] == [];
    }
    ClassIdsCount(entries[..i]);
  }

  /** Every recorded class id is the id of a type-4 entry, and ids appear in
      listing order: the entry of position `k` has `k` type-4 entries
      before it. */
  lemma {:induction false} EntryOfClassId(entries: seq<TabEntry>, k: nat)
    requires k < |ClassIds(entries)|
    ensures exists i :: (0 <= i < |entries| && NamesClass(entries[i])
      && ClassEntryCount(entries[..i]) == k && ClassIds(entries)[k] == entries[i].classId)
  {
    var n := |entries| - 1;
    var init := entries[..n];
    ClassIdsCount(init);
    if k < |ClassIds(init)| {
      EntryOfClassId(init, k);
      var i :| 0 <= i < |init| && NamesClass(init[i])
        && ClassEntryCount(init[..i]) == k && ClassIds(init)[k] == init[i].classId;
      assert init[..i] == entries[..i];
      assert entries[i] == init[i];
    }
  }

  /** An entry contributes its embedded courses, in order, right after the
      courses of the entries before it when its type is 3 or 4, and nothing
      otherwise. */
  lemma SeededByEntry(entries: seq<TabEntry>, i: nat)
    requires i < |entries|
    ensures Seeded(entries[..i + 1])
      == Seeded(entries[..i]) + (if CarriesCourses(entries[i]) then entries[i].courses else [])
    ensures Seeded(entries[..i + 1]) <= Seeded(entries)
  {
    var pre, rest := entries[..i + 1], entries[i + 1..];
    assert Seeded(pre)
      == Seeded(entries[..i]) + (if CarriesCourses(entries[i]) then entries[i].courses else []) by {
      assert pre[..|pre| - 1] == entries[..i];
      assert pre[|pre| - 1] == entries[i];
    }
    assert Seeded(pre) <= Seeded(entries) by {
      SeededAppend(pre, rest);
      assert pre + rest == entries;
    }
  }

  /** A listing without type-3 or type-4 entries seeds nothing. */
  lemma {:induction false} NothingSeededWithoutCourseEntries(entries: seq<TabEntry>)
    requires forall i :: 0 <= i < |entries| ==> !CarriesCourses(entries[i])
    ensures Seeded(entries) == []
  {
    if entries != [] {
      var init := entries[..|entries| - 1];
      assert forall i :: 0 <= i < |init| ==> init[i] == entries[i];
      NothingSeededWithoutCourseEntries(init);
    }
  }
}
